/** Whole sessions of the orchestrator, and campaigns of sessions that resume one another. */
module Session {
  import opened Arith
  import opened RunRecords
  import opened Judgement
  import opened Statistics
  import opened Outcome
  import opened OpenLoop
  import opened Classify
  import opened Resume
  import opened Ledgers
  import opened Matrix
  import opened Rounds

  ghost function LedgersOf(records: seq<RunRecord>, k: ProtocolConstants): ConfigKey -> Ledger {
    key => LedgerOf(RunsOf(records, key), k)
  }

  /** On tracked terms, no configuration has more complete attempts than its budget, or than it began with. */
  ghost predicate Within(records: seq<RunRecord>, k: ProtocolConstants, terms: Terms) {
    terms.tracked ==>
      forall key: ConfigKey :: LedgerOf(RunsOf(records, key), k).complete <= Max(k.maxConfigAttempts, terms.base(key))
  }

  // ---------------------------------------------------------------- what a round adds

  /** A round over the records: every new record belongs to a planned attempt of a budgeted configuration. */
  ghost predicate RoundOver(b: Books, records: seq<RunRecord>, round: seq<RunRecord>, active: seq<Planned>,
                            k: ProtocolConstants, terms: Terms, over: set<ConfigKey>) {
    && Standing(b.left, b.next, b.pending, LedgersOf(records, k), terms, k.maxConfigAttempts, over)
    && Drawn(active, b.left, b.next, b.pending, |b.pending|)
    && PartOf(round, active)
  }

  lemma RunsAfter(records: seq<RunRecord>, round: seq<RunRecord>, key: ConfigKey)
    ensures RunsOf(records + round, key) == RunsOf(records, key) + RunsOf(round, key)
  {
    WhereConcat(records, round, OfKey(key));
  }

  /** A configuration without a budget runs nothing. */
  lemma IdleKey(b: Books, records: seq<RunRecord>, round: seq<RunRecord>, active: seq<Planned>, k: ProtocolConstants,
                terms: Terms, over: set<ConfigKey>, key: ConfigKey)
    requires RoundOver(b, records, round, active, k, terms, over)
    requires key !in b.pending || Of(b.left, key) == 0
    ensures RunsOf(round, key) == [] && RunsOf(records + round, key) == RunsOf(records, key)
  {
    forall r | r in round ensures r.key != key {
      assert Planned(r.key, r.attempt) in active;
    }
    WhereNone(round, OfKey(key));
    RunsAfter(records, round, key);
  }

  /** The records a budgeted configuration adds carry its planned number. */
  lemma BusyAttempt(b: Books, records: seq<RunRecord>, round: seq<RunRecord>, active: seq<Planned>,
                    k: ProtocolConstants, terms: Terms, over: set<ConfigKey>, key: ConfigKey)
    requires RoundOver(b, records, round, active, k, terms, over)
    requires key in b.pending && Of(b.left, key) > 0
    ensures forall r | r in RunsOf(round, key) :: r.attempt == Of(b.next, key)
  {
    forall r | r in RunsOf(round, key) ensures r.attempt == Of(b.next, key) {
      WhereMeaning(round, OfKey(key), r);
      assert Planned(r.key, r.attempt) in active;
    }
  }

  /** On tracked terms they lie above all it had. */
  lemma BusyKey(b: Books, records: seq<RunRecord>, round: seq<RunRecord>, active: seq<Planned>, k: ProtocolConstants,
                terms: Terms, over: set<ConfigKey>, key: ConfigKey)
    requires RoundOver(b, records, round, active, k, terms, over) && terms.tracked
    requires key in b.pending && Of(b.left, key) > 0
    ensures Above(RunsOf(records, key), RunsOf(round, key), Of(b.next, key))
  {
    BelowAbove(RunsOf(records, key), Of(b.next, key), k);
    BusyAttempt(b, records, round, active, k, terms, over, key);
  }

  /** However a round ends, no configuration exceeds its budget. */
  lemma RoundStaysWithin(b: Books, records: seq<RunRecord>, round: seq<RunRecord>, active: seq<Planned>,
                         k: ProtocolConstants, terms: Terms, over: set<ConfigKey>)
    requires RoundOver(b, records, round, active, k, terms, over) && Within(records, k, terms)
    ensures Within(records + round, k, terms)
  {
    if terms.tracked {
      forall key: ConfigKey
        ensures LedgerOf(RunsOf(records + round, key), k).complete <= Max(k.maxConfigAttempts, terms.base(key))
      {
        KeyStaysWithin(b, records, round, active, k, terms, over, key);
      }
    }
  }

  lemma KeyStaysWithin(b: Books, records: seq<RunRecord>, round: seq<RunRecord>, active: seq<Planned>,
                       k: ProtocolConstants, terms: Terms, over: set<ConfigKey>, key: ConfigKey)
    requires RoundOver(b, records, round, active, k, terms, over) && Within(records, k, terms) && terms.tracked
    ensures LedgerOf(RunsOf(records + round, key), k).complete <= Max(k.maxConfigAttempts, terms.base(key))
  {
    var had, more := RunsOf(records, key), RunsOf(round, key);
    RunsAfter(records, round, key);
    if key !in b.pending || Of(b.left, key) == 0 {
      IdleKey(b, records, round, active, k, terms, over, key);
    } else if more == [] {
      assert had + more == had;
    } else {
      BusyKey(b, records, round, active, k, terms, over, key);
      LedgerStep(had, more, Of(b.next, key), k);
    }
  }

  /** A finished round completes one attempt of every budgeted configuration, and touches no other. */
  lemma FinishedRound(b: Books, records: seq<RunRecord>, round: seq<RunRecord>, active: seq<Planned>,
                      k: ProtocolConstants, terms: Terms, over: set<ConfigKey>)
    requires RoundOver(b, records, round, active, k, terms, over) && k.repetitions >= 1
    requires Undisturbed(round) && forall p | p in active :: Ran(round, p, k.repetitions)
    ensures Played(b, round, k.repetitions, k.enforceSpread, LedgersOf(records, k), LedgersOf(records + round, k),
                   terms)
  {
    forall key | key in b.pending && Of(b.left, key) == 0
      ensures RunsOf(round, key) == [] && LedgersOf(records + round, k)(key) == LedgersOf(records, k)(key)
    {
      IdleKey(b, records, round, active, k, terms, over, key);
    }
    forall key | key in b.pending && Of(b.left, key) > 0
      ensures RunsOf(round, key) != []
      ensures terms.tracked ==>
                LedgersOf(records + round, k)(key)
                == NextLedger(b, round, k.repetitions, k.enforceSpread, LedgersOf(records, k), key)
    {
      FinishedKey(b, records, round, active, k, terms, over, key);
    }
  }

  lemma FinishedKey(b: Books, records: seq<RunRecord>, round: seq<RunRecord>, active: seq<Planned>,
                    k: ProtocolConstants, terms: Terms, over: set<ConfigKey>, key: ConfigKey)
    requires RoundOver(b, records, round, active, k, terms, over) && k.repetitions >= 1
    requires Undisturbed(round) && forall p | p in active :: Ran(round, p, k.repetitions)
    requires key in b.pending && Of(b.left, key) > 0
    ensures RunsOf(round, key) != []
    ensures terms.tracked ==>
              LedgerOf(RunsOf(records + round, key), k)
              == NextLedger(b, round, k.repetitions, k.enforceSpread, LedgersOf(records, k), key)
  {
    var had, more := RunsOf(records, key), RunsOf(round, key);
    assert b.pending[..|b.pending|] == b.pending;
    assert Ran(round, Planned(key, Of(b.next, key)), k.repetitions);
    if terms.tracked {
      forall r | r in more ensures !IsCancelled(r) && !LeftSurvivor(r) { WhereMeaning(round, OfKey(key), r); }
      InOrderIsComplete(more, k.repetitions);
      RunsAfter(records, round, key);
      BusyKey(b, records, round, active, k, terms, over, key);
      LedgerStep(had, more, Of(b.next, key), k);
    }
  }

  // ---------------------------------------------------------------- the stop check

  ghost predicate IsExhausted(records: seq<RunRecord>, k: ProtocolConstants, key: ConfigKey) {
    OutcomeOf(RunsOf(records, key), k).Exhausted?
  }

  /** Every pending configuration that was checked has no budget, and did not stop the session. */
  ghost predicate Cleared(b: Books, records: seq<RunRecord>, k: ProtocolConstants, stopRule: bool) {
    forall key | key in b.checked && key in b.pending ::
      Of(b.left, key) == 0 && (stopRule ==> !IsExhausted(records, k, key))
  }

  datatype Verdict = GoOn | StoppedBy(key: ConfigKey) | CheckFailed

  /** Ask once about every pending configuration without a budget; reading the records may fail. */
  method StopCheck(b: Books, dir: Dir, k: ProtocolConstants, stopRule: bool, ghost before: set<Name>,
                   ghost t: seq<Event>)
    returns (b': Books, verdict: Verdict, ghost t': seq<Event>)
    requires Cleared(b, dir.records, k, stopRule)
    requires DispatchesOk(t, before, Names(dir), k.repetitions) && AsksOk(t) && GoingOn(t, b.checked)
    ensures b' == b.(checked := b'.checked) && (InOrder(t, k.repetitions) ==> InOrder(t', k.repetitions))
    ensures DispatchesOk(t', before, Names(dir), k.repetitions) && AsksOk(t')
    ensures verdict.GoOn? ==>
              && GoingOn(t', b'.checked) && Cleared(b', dir.records, k, stopRule)
              && forall key | key in b.pending && Of(b.left, key) == 0 :: key in b'.checked
    ensures verdict.StoppedBy? ==>
              && verdict.key in b.pending && stopRule && IsExhausted(dir.records, k, verdict.key)
              && t' != [] && t'[|t'| - 1] == Ask(verdict.key, 0, true)
  {
    b', t' := b, t;
    for i := 0 to |b.pending|
      invariant b' == b.(checked := b'.checked) && b.checked <= b'.checked
      invariant InOrder(t, k.repetitions) ==> InOrder(t', k.repetitions)
      invariant DispatchesOk(t', before, Names(dir), k.repetitions) && AsksOk(t') && GoingOn(t', b'.checked)
      invariant Cleared(b', dir.records, k, stopRule)
      invariant forall j | 0 <= j < i && Of(b.left, b.pending[j]) == 0 :: b.pending[j] in b'.checked
    {
      var key := b.pending[i];
      if Of(b.left, key) == 0 && key !in b'.checked {
        var stops := false;
        if stopRule {
          if * {
            return b', CheckFailed, t';
          }
          var outcome := ClassifyOpenLoop(RunsOf(dir.records, key), k);
          stops := outcome.Exhausted?;
        }
        AskStep(t', before, Names(dir), k.repetitions, Ask(key, Of(b.left, key), stops), b'.checked);
        t' := t' + [Ask(key, Of(b.left, key), stops)];
        b' := b'.(checked := b'.checked + {key});
        if stops {
          return b', StoppedBy(key), t';
        }
      }
    }
    verdict := GoOn;
  }

  // ---------------------------------------------------------------- opening the books

  ghost predicate SameKeys(a: seq<ConfigKey>, b: seq<ConfigKey>) {
    forall key :: key in a <==> key in b
  }

  function KeysOf(plans: seq<Planned>): seq<ConfigKey> {
    seq(|plans|, i requires 0 <= i < |plans| => plans[i].key)
  }

  /** The plan is the first one listed for its configuration. */
  ghost predicate FirstListed(p: Planned, specs: seq<Planned>) {
    exists i | 0 <= i < |specs| :: specs[i] == p && forall j | 0 <= j < i :: specs[j].key != p.key
  }

  /** The first plan of every configuration, in order. */
  method Deduplicate(specs: seq<Planned>) returns (distinct: seq<Planned>)
    ensures Distinct(KeysOf(distinct)) && SameKeys(KeysOf(distinct), KeysOf(specs))
    ensures forall p | p in distinct :: FirstListed(p, specs)
  {
    distinct := [];
    for i := 0 to |specs|
      invariant Distinct(KeysOf(distinct)) && forall key :: key in KeysOf(distinct) <==> key in KeysOf(specs)[..i]
      invariant forall p | p in distinct :: FirstListed(p, specs)
    {
      assert KeysOf(specs)[..i + 1] == KeysOf(specs)[..i] + [specs[i].key];
      if specs[i].key !in KeysOf(distinct) {
        assert FirstListed(specs[i], specs) by {
          forall j | 0 <= j < i ensures specs[j].key != specs[i].key { assert KeysOf(specs)[..i][j] == specs[j].key; }
        }
        assert KeysOf(distinct + [specs[i]]) == KeysOf(distinct) + [specs[i].key];
        distinct := distinct + [specs[i]];
      }
    }
    assert KeysOf(specs)[..|specs|] == KeysOf(specs);
  }

  /** The books open on the plans: the remaining budget, or a whole one, and the planned number, or 1. */
  ghost predicate Opened(b: Books, plans: seq<Planned>, remaining: map<ConfigKey, u32>, max: u32) {
    && b.pending == KeysOf(plans) && b.passed == [] && b.checked == {}
    && forall p | p in plans ::
         && Of(b.left, p.key) == (if p.key in remaining then remaining[p.key] else max)
         && Of(b.next, p.key) == Max(p.attempt, 1)
  }

  method OpenBooks(plans: seq<Planned>, remaining: map<ConfigKey, u32>, max: u32) returns (b: Books)
    requires Distinct(KeysOf(plans))
    ensures Opened(b, plans, remaining, max)
  {
    var left: map<ConfigKey, u32>, next: map<ConfigKey, u32> := map[], map[];
    for i := 0 to |plans|
      invariant forall j | 0 <= j < i ::
                  && Of(left, plans[j].key) == (if plans[j].key in remaining then remaining[plans[j].key] else max)
                  && Of(next, plans[j].key) == Max(plans[j].attempt, 1)
    {
      var key := plans[i].key;
      forall j | 0 <= j < i ensures plans[j].key != key {
        assert KeysOf(plans)[j] == plans[j].key && KeysOf(plans)[i] == key;
      }
      left := left[key := if key in remaining then remaining[key] else max];
      next := next[key := Max(plans[i].attempt, 1)];
    }
    b := Books(left, next, {}, [], KeysOf(plans));
  }

  /** The number `plan_spec` gives a configuration. */
  function PlannedAttempt(plan: map<ConfigKey, ResumeState>, key: ConfigKey): u32 {
    if key in plan && plan[key].NextAttempt? then plan[key].attempt else 1
  }

  /** `remaining_by_key`: the budgets of the configurations a plan resumes. */
  function Remaining(plan: map<ConfigKey, ResumeState>): map<ConfigKey, u32> {
    map key | key in plan && plan[key].NextAttempt? :: plan[key].remaining
  }

  /** The specs and budgets come from a resume plan that describes the stored records. */
  ghost predicate FromPlan(specs: seq<Planned>, remaining: map<ConfigKey, u32>, plan: map<ConfigKey, ResumeState>,
                           records: seq<RunRecord>, k: ProtocolConstants) {
    && remaining == Remaining(plan)
    && forall s | s in specs ::
         && UpToDate(plan, s.key, RunsOf(records, s.key), k) && !(s.key in plan && plan[s.key].HasPassed?)
         && s.attempt == PlannedAttempt(plan, s.key)
  }

  /** The configurations whose records already take the last attempt number. */
  ghost function Overflowed(keys: seq<ConfigKey>, records: seq<RunRecord>, k: ProtocolConstants): set<ConfigKey> {
    set key | key in keys && LedgerOf(RunsOf(records, key), k).above > U32_MAX
  }

  lemma OverflowedAreGone(keys: seq<ConfigKey>, dir: Dir, k: ProtocolConstants, key: ConfigKey)
    requires key in Overflowed(keys, dir.records, k)
    ensures NumbersGone(Names(dir), key)
  {
    var runs := RunsOf(dir.records, key);
    HighestMeaning(runs);
    var r :| r in runs && r.attempt == Highest(runs);
    WhereMeaning(dir.records, OfKey(key), r);
    assert NameOf(r) in Names(dir);
  }

  lemma OpenStanding(b: Books, plans: seq<Planned>, remaining: map<ConfigKey, u32>, plan: map<ConfigKey, ResumeState>,
                     records: seq<RunRecord>, k: ProtocolConstants, terms: Terms)
    requires Opened(b, plans, remaining, k.maxConfigAttempts) && Within(records, k, terms)
    requires terms.tracked ==> FromPlan(plans, remaining, plan, records, k)
    ensures Standing(b.left, b.next, b.pending, LedgersOf(records, k), terms, k.maxConfigAttempts,
                     Overflowed(b.pending, records, k))
    ensures Lined(b.left, b.next, b.pending, LedgersOf(records, k), terms)
  {
    if terms.tracked {
      forall i | 0 <= i < |b.pending|
        ensures Budgeted(LedgersOf(records, k)(b.pending[i]), Of(b.left, b.pending[i]), Of(b.next, b.pending[i]),
                         k.maxConfigAttempts, terms.base(b.pending[i]),
                         b.pending[i] in Overflowed(b.pending, records, k))
        ensures Of(b.left, b.pending[i]) > 0 ==>
                  Of(b.next, b.pending[i]) == Max(LedgersOf(records, k)(b.pending[i]).above, 1)
      {
        assert plans[i] in plans && plans[i].key == b.pending[i];
        GrantIsBudgeted(plan, b.pending[i], RunsOf(records, b.pending[i]), k, terms.base(b.pending[i]));
      }
    }
  }

  // ---------------------------------------------------------------- between two rounds

  /** What holds between rounds of a session over the configurations `keys`. */
  ghost predicate Accounted(b: Books, dir: Dir, keys: seq<ConfigKey>, k: ProtocolConstants, terms: Terms,
                            over: set<ConfigKey>) {
    && Distinct(b.pending) && multiset(b.passed) + multiset(b.pending) == multiset(keys)
    && Standing(b.left, b.next, b.pending, LedgersOf(dir.records, k), terms, k.maxConfigAttempts, over)
    && (terms.tracked ==> forall key | key in b.passed :: LedgersOf(dir.records, k)(key).passes)
    && (forall key | key in over :: NumbersGone(Names(dir), key))
    && Within(dir.records, k, terms)
  }

  ghost predicate Untouched(keys: seq<ConfigKey>, before: seq<RunRecord>, after: seq<RunRecord>) {
    forall key | key !in keys :: RunsOf(after, key) == RunsOf(before, key)
  }

  lemma GoneStaysGone(names: set<Name>, names': set<Name>, key: ConfigKey)
    requires NumbersGone(names, key) && names <= names'
    ensures NumbersGone(names', key)
  {
  }

  /** A partition of distinct keys: whoever has passed is not pending. */
  lemma PassedNotPending(passed: seq<ConfigKey>, pending: seq<ConfigKey>, keys: seq<ConfigKey>, key: ConfigKey)
    requires Distinct(keys) && multiset(passed) + multiset(pending) == multiset(keys) && key in passed
    ensures key !in pending && key in keys
  {
    assert multiset(passed)[key] >= 1;
    assert key in multiset(keys);
    AtMostOnce(keys, key);
    assert multiset(passed)[key] + multiset(pending)[key] == multiset(keys)[key];
  }

  lemma {:induction false} AtMostOnce(keys: seq<ConfigKey>, key: ConfigKey)
    requires Distinct(keys)
    ensures multiset(keys)[key] <= 1
  {
    if keys != [] {
      var before := keys[..|keys| - 1];
      AtMostOnce(before, key);
      assert keys == before + [keys[|keys| - 1]];
      if keys[|keys| - 1] == key { assert key !in before; }
    }
  }

  lemma PendingInKeys(b: Books, keys: seq<ConfigKey>, key: ConfigKey)
    requires multiset(b.passed) + multiset(b.pending) == multiset(keys) && key in b.pending
    ensures key in keys
  {
    assert key in multiset(b.passed) + multiset(b.pending);
  }

  /** Whoever settled with the last number has a record under it. */
  lemma LastNumberUsed(b: Books, dir: Dir, dir': Dir, round: seq<RunRecord>, lg: ConfigKey -> Ledger,
                       lg': ConfigKey -> Ledger, k: ProtocolConstants, key: ConfigKey, active: seq<Planned>,
                       terms: Terms, over: set<ConfigKey>)
    requires RoundOver(b, dir.records, round, active, k, terms, over) && dir'.records == dir.records + round
    requires Played(b, round, k.repetitions, k.enforceSpread, lg, lg', terms)
    requires key in b.pending && Of(b.left, key) > 0 && Of(b.next, key) == U32_MAX
    ensures NumbersGone(Names(dir'), key)
  {
    BusyAttempt(b, dir.records, round, active, k, terms, over, key);
    var r := RunsOf(round, key)[0];
    WhereMeaning(round, OfKey(key), r);
    assert r in dir'.records && NameOf(r) in Names(dir');
  }

  /** A settled round leaves the books accounted for. */
  lemma AfterRound(b: Books, b': Books, dir: Dir, dir': Dir, round: seq<RunRecord>, active: seq<Planned>,
                   keys: seq<ConfigKey>, k: ProtocolConstants, terms: Terms, over: set<ConfigKey>,
                   over': set<ConfigKey>, played: nat)
    requires Accounted(b, dir, keys, k, terms, over) && Distinct(keys)
    requires RoundOver(b, dir.records, round, active, k, terms, over)
    requires dir'.records == dir.records + round && Names(dir) <= Names(dir')
    requires Played(b, round, k.repetitions, k.enforceSpread, LedgersOf(dir.records, k), LedgersOf(dir'.records, k),
                    terms)
    requires Settling(b, b', |b.pending|, LedgersOf(dir'.records, k), terms, k.maxConfigAttempts, over, over', played)
    ensures Accounted(b', dir', keys, k, terms, over')
  {
    RoundStaysWithin(b, dir.records, round, active, k, terms, over);
    assert b.pending[..|b.pending|] == b.pending;
    GoneAfter(b, b', dir, dir', round, active, k, terms, over, over');
    if terms.tracked { PassedAfter(b, b'.passed, dir.records, round, active, keys, k, terms, over); }
  }

  lemma GoneAfter(b: Books, b': Books, dir: Dir, dir': Dir, round: seq<RunRecord>, active: seq<Planned>,
                  k: ProtocolConstants, terms: Terms, over: set<ConfigKey>, over': set<ConfigKey>)
    requires RoundOver(b, dir.records, round, active, k, terms, over)
    requires dir'.records == dir.records + round && Names(dir) <= Names(dir')
    requires Played(b, round, k.repetitions, k.enforceSpread, LedgersOf(dir.records, k), LedgersOf(dir'.records, k),
                    terms)
    requires Settled(b, b'.left, b'.next, b'.passed, b'.pending, |b.pending|, over, over')
    requires forall key | key in over :: NumbersGone(Names(dir), key)
    ensures forall key | key in over' :: NumbersGone(Names(dir'), key)
  {
    forall key | key in over' ensures NumbersGone(Names(dir'), key) {
      if key in over {
        GoneStaysGone(Names(dir), Names(dir'), key);
      } else {
        LastNumberUsed(b, dir, dir', round, LedgersOf(dir.records, k), LedgersOf(dir'.records, k), k, key, active,
                       terms, over);
      }
    }
  }

  lemma PassedAfter(b: Books, passed: seq<ConfigKey>, records: seq<RunRecord>, round: seq<RunRecord>,
                    active: seq<Planned>, keys: seq<ConfigKey>, k: ProtocolConstants, terms: Terms,
                    over: set<ConfigKey>)
    requires RoundOver(b, records, round, active, k, terms, over)
    requires Distinct(keys) && multiset(b.passed) + multiset(b.pending) == multiset(keys) && b.passed <= passed
    requires forall key | key in b.passed :: LedgersOf(records, k)(key).passes
    requires forall j | |b.passed| <= j < |passed| :: LedgersOf(records + round, k)(passed[j]).passes
    ensures forall key | key in passed :: LedgersOf(records + round, k)(key).passes
  {
    forall i | 0 <= i < |b.passed| ensures LedgersOf(records + round, k)(passed[i]).passes {
      assert b.passed[i] == passed[i] && b.passed[i] in b.passed;
      PassedNotPending(b.passed, b.pending, keys, b.passed[i]);
      IdleKey(b, records, round, active, k, terms, over, b.passed[i]);
    }
  }

  lemma ClearedAfter(b: Books, b': Books, records: seq<RunRecord>, round: seq<RunRecord>, active: seq<Planned>,
                     k: ProtocolConstants, terms: Terms, over: set<ConfigKey>, over': set<ConfigKey>, stopRule: bool)
    requires RoundOver(b, records, round, active, k, terms, over) && Cleared(b, records, k, stopRule)
    requires b'.checked == b.checked && Settled(b, b'.left, b'.next, b'.passed, b'.pending, |b.pending|, over, over')
    ensures Cleared(b', records + round, k, stopRule)
  {
    assert b.pending[..|b.pending|] == b.pending;
    forall key | key in b'.checked && key in b'.pending
      ensures Of(b'.left, key) == 0 && (stopRule ==> !IsExhausted(records + round, k, key))
    {
      IdleKey(b, records, round, active, k, terms, over, key);
    }
  }

  lemma UntouchedAfter(b: Books, records: seq<RunRecord>, round: seq<RunRecord>, active: seq<Planned>,
                       keys: seq<ConfigKey>, k: ProtocolConstants, terms: Terms, over: set<ConfigKey>,
                       start: seq<RunRecord>)
    requires RoundOver(b, records, round, active, k, terms, over) && Untouched(keys, start, records)
    requires multiset(b.passed) + multiset(b.pending) == multiset(keys)
    ensures Untouched(keys, start, records + round)
  {
    forall key | key !in keys ensures RunsOf(records + round, key) == RunsOf(start, key) {
      if key in b.pending { PendingInKeys(b, keys, key); }
      IdleKey(b, records, round, active, k, terms, over, key);
    }
  }

  // ---------------------------------------------------------------- a whole stage

  datatype Ending = Finished(passed: seq<ConfigKey>, failed: seq<ConfigKey>, stopped: Option<ConfigKey>) | Interrupted

  /** The two lists hold every configuration once. */
  ghost predicate Partition(passed: seq<ConfigKey>, failed: seq<ConfigKey>, specs: seq<ConfigKey>) {
    && Distinct(passed) && Distinct(failed)
    && (forall key :: key in specs <==> key in passed || key in failed)
    && (forall key | key in passed :: key !in failed)
  }

  lemma PartitionOf(passed: seq<ConfigKey>, failed: seq<ConfigKey>, keys: seq<ConfigKey>)
    requires Distinct(keys) && Distinct(failed) && multiset(passed) + multiset(failed) == multiset(keys)
    ensures Partition(passed, failed, keys)
  {
    forall i, j | 0 <= i < j < |passed| ensures passed[i] != passed[j] {
      Repeated(passed, i, j);
      AtMostOnce(keys, passed[i]);
      assert multiset(passed)[passed[i]] <= multiset(keys)[passed[i]];
    }
    forall key ensures key in keys <==> key in passed || key in failed {
      assert multiset(keys)[key] == multiset(passed)[key] + multiset(failed)[key];
      assert key in keys <==> key in multiset(keys);
      assert key in passed <==> key in multiset(passed);
      assert key in failed <==> key in multiset(failed);
    }
    forall key | key in passed ensures key !in failed { PassedNotPending(passed, failed, keys, key); }
  }

  /** The configuration's stored records say how it ended; under the stop rule, that it was not sustained. */
  ghost predicate Classified(records: seq<RunRecord>, k: ProtocolConstants, key: ConfigKey, stopRule: bool) {
    var outcome := OutcomeOf(RunsOf(records, key), k);
    outcome.NotSustained? || (outcome.Exhausted? && !stopRule)
  }

  lemma FailedAreClassified(b: Books, dir: Dir, keys: seq<ConfigKey>, k: ProtocolConstants, terms: Terms,
                            over: set<ConfigKey>, stopRule: bool, key: ConfigKey)
    requires Accounted(b, dir, keys, k, terms, over) && Cleared(b, dir.records, k, stopRule)
    requires k.maxConfigAttempts >= 1 && terms.tracked
    requires key in b.pending && Of(b.left, key) == 0 && (key in over || key in b.checked)
    ensures NumbersGone(Names(dir), key) || Classified(dir.records, k, key, stopRule)
  {
    if key !in over { SpentIsClassified(RunsOf(dir.records, key), k); }
  }

  /** What holds at the top of every round. */
  ghost predicate Running(b: Books, start: Dir, dir: Dir, keys: seq<ConfigKey>, k: ProtocolConstants, terms: Terms,
                          over: set<ConfigKey>, stopRule: bool, t: seq<Event>) {
    && Accounted(b, dir, keys, k, terms, over) && Cleared(b, dir.records, k, stopRule)
    && Untouched(keys, start.records, dir.records)
    && DispatchesOk(t, Names(start), Names(dir), k.repetitions) && AsksOk(t) && GoingOn(t, b.checked)
    && (terms.tracked ==> InOrder(t, k.repetitions))
  }

  lemma AboveIsLedger(records: seq<RunRecord>, key: ConfigKey, a: u32, k: ProtocolConstants)
    ensures AboveStored(records, key, a) <==> LedgerOf(RunsOf(records, key), k).above <= a
  {
    var runs := RunsOf(records, key);
    forall r | r in records && r.key == key ensures r in runs { WhereMeaning(records, OfKey(key), r); }
    forall r | r in runs ensures r in records && r.key == key { WhereMeaning(records, OfKey(key), r); }
    if runs != [] {
      HighestMeaning(runs);
      var top :| top in runs && top.attempt == Highest(runs);
      assert top in records && top.key == key;
      forall r | r in runs ensures r.attempt <= Highest(runs) { assert r.attempt in Attempts(runs); }
    }
  }

  /** A plan drawn from lined-up books is at the first free number of its configuration. */
  lemma DrawnIsNextFree(dir: Dir, k: ProtocolConstants, p: Planned, start: u32)
    requires start == Max(LedgerOf(RunsOf(dir.records, p.key), k).above, 1)
    requires Skips(Names(dir), p.key, start, p.attempt, k.repetitions)
    requires Unused(Names(dir), p.key, p.attempt, k.repetitions)
    ensures NextFree(dir, p.key, p.attempt, k.repetitions)
  {
    AboveIsLedger(dir.records, p.key, p.attempt, k);
    forall x: u32 | 1 <= x < p.attempt && AboveStored(dir.records, p.key, x)
      ensures !Unused(Names(dir), p.key, x, k.repetitions)
    {
      AboveIsLedger(dir.records, p.key, x, k);
    }
  }

  lemma PlansAreNextFree(b: Books, b': Books, dir: Dir, k: ProtocolConstants, active: seq<Planned>, terms: Terms)
    requires Lined(b.left, b.next, b.pending, LedgersOf(dir.records, k), terms) && terms.tracked
    requires b'.pending == b.pending && Drawn(active, b'.left, b'.next, b'.pending, |b'.pending|)
    requires forall key :: Of(b'.left, key) == Of(b.left, key) || Of(b'.left, key) == 0
    requires PlansOk(active, Names(dir), k.repetitions)
    requires forall p | p in active :: Skips(Names(dir), p.key, Of(b.next, p.key), p.attempt, k.repetitions)
    ensures forall p | p in active :: NextFree(dir, p.key, p.attempt, k.repetitions)
  {
    assert b'.pending[..|b'.pending|] == b'.pending;
    forall p | p in active ensures NextFree(dir, p.key, p.attempt, k.repetitions) {
      assert p.key in b.pending && Of(b.left, p.key) > 0;
      DrawnIsNextFree(dir, k, p, Of(b.next, p.key));
    }
  }

  /** Dispatch a planned round and settle it. */
  method PlayRound(b: Books, start: Dir, dir: Dir, active: seq<Planned>, ghost keys: seq<ConfigKey>,
                   k: ProtocolConstants, ghost terms: Terms, ghost over: set<ConfigKey>, ghost stopRule: bool,
                   ghost t: seq<Event>)
    returns (b': Books, dir': Dir, status: Status, ghost over': set<ConfigKey>, ghost t': seq<Event>)
    requires Running(b, start, dir, keys, k, terms, over, stopRule, t) && Distinct(keys) && k.repetitions >= 1
    requires PlansOk(active, Names(dir), k.repetitions) && active != []
    requires Drawn(active, b.left, b.next, b.pending, |b.pending|)
    requires terms.tracked ==> forall p | p in active :: NextFree(dir, p.key, p.attempt, k.repetitions)
    ensures Within(dir'.records, k, terms) && Untouched(keys, start.records, dir'.records)
    ensures DispatchesOk(t', Names(start), Names(dir'), k.repetitions) && AsksOk(t')
    ensures terms.tracked ==> InOrder(t', k.repetitions)
    ensures status == Continue ==>
              && Running(b', start, dir', keys, k, terms, over', stopRule, t')
              && Lined(b'.left, b'.next, b'.pending, LedgersOf(dir'.records, k), terms)
              && Total(b'.left, b'.pending) < Total(b.left, b.pending)
  {
    var round;
    dir', round, status, t' := DispatchRound(dir, active, k.repetitions, Names(start), t, b.checked);
    b', over' := b, over;
    if terms.tracked { RunsInOrder(t, t', dir, active, k.repetitions); }
    RoundStaysWithin(b, dir.records, round, active, k, terms, over);
    UntouchedAfter(b, dir.records, round, active, keys, k, terms, over, start.records);
    if status == Halt {
      return;
    }
    FinishedRound(b, dir.records, round, active, k, terms, over);
    ghost var played;
    b', over', played := Settle(b, round, k.repetitions, k.enforceSpread, LedgersOf(dir.records, k),
                                LedgersOf(dir'.records, k), terms, k.maxConfigAttempts, over);
    AfterRound(b, b', dir, dir', round, active, keys, k, terms, over, over', played);
    ClearedAfter(b, b', dir.records, round, active, k, terms, over, over', stopRule);
    assert b.pending[..|b.pending|] == b.pending;
    assert active[0] in active;
  }

  /** What a stage promises about the records and the trace it leaves, however it ends. */
  ghost predicate StageKeeps(start: Dir, dir: Dir, specs: seq<ConfigKey>, k: ProtocolConstants, terms: Terms,
                             t: seq<Event>) {
    && Within(dir.records, k, terms) && Untouched(specs, start.records, dir.records)
    && DispatchesOk(t, Names(start), Names(dir), k.repetitions) && AsksOk(t)
    && (terms.tracked ==> InOrder(t, k.repetitions))
  }

  /** What a stage promises when it was not interrupted. */
  ghost predicate StageEnds(dir: Dir, ending: Ending, specs: seq<ConfigKey>, k: ProtocolConstants, stopRule: bool,
                            t: seq<Event>)
    requires ending.Finished?
  {
    && Partition(ending.passed, ending.failed, specs)
    && (ending.stopped.Some? ==>
          && stopRule && ending.stopped.value in ending.failed && IsExhausted(dir.records, k, ending.stopped.value)
          && t != [] && t[|t| - 1] == Ask(ending.stopped.value, 0, true))
  }

  /** What its records then say of every configuration, when the budgets were planned from the records. */
  ghost predicate StageSettles(dir: Dir, ending: Ending, k: ProtocolConstants, stopRule: bool)
    requires ending.Finished?
  {
    && (forall key | key in ending.passed :: HighestPasses(RunsOf(dir.records, key), k))
    && (ending.stopped.None? ==>
          forall key | key in ending.failed ::
            NumbersGone(Names(dir), key) || Classified(dir.records, k, key, stopRule))
  }

  lemma SamePartition(passed: seq<ConfigKey>, failed: seq<ConfigKey>, keys: seq<ConfigKey>, specs: seq<ConfigKey>)
    requires Distinct(keys) && SameKeys(keys, specs) && Distinct(failed)
    requires multiset(passed) + multiset(failed) == multiset(keys)
    ensures Partition(passed, failed, specs)
  {
    PartitionOf(passed, failed, keys);
  }

  lemma SameUntouched(keys: seq<ConfigKey>, specs: seq<ConfigKey>, before: seq<RunRecord>, after: seq<RunRecord>)
    requires SameKeys(keys, specs) && Untouched(keys, before, after)
    ensures Untouched(specs, before, after)
  {
  }

  lemma Passing(b: Books, dir: Dir, keys: seq<ConfigKey>, k: ProtocolConstants, terms: Terms, over: set<ConfigKey>)
    requires Accounted(b, dir, keys, k, terms, over) && terms.tracked
    ensures forall key | key in b.passed :: HighestPasses(RunsOf(dir.records, key), k)
  {
    forall key | key in b.passed ensures HighestPasses(RunsOf(dir.records, key), k) {
      assert LedgersOf(dir.records, k)(key).passes;
    }
  }

  /** Open a stage over distinct configurations. */
  lemma StageOpens(b: Books, start: Dir, plans: seq<Planned>, remaining: map<ConfigKey, u32>,
                   plan: map<ConfigKey, ResumeState>, k: ProtocolConstants, terms: Terms, stopRule: bool)
    requires Distinct(KeysOf(plans)) && Opened(b, plans, remaining, k.maxConfigAttempts)
    requires (terms.tracked ==> FromPlan(plans, remaining, plan, start.records, k)) && Within(start.records, k, terms)
    ensures Running(b, start, start, KeysOf(plans), k, terms, Overflowed(b.pending, start.records, k), stopRule, [])
    ensures Lined(b.left, b.next, b.pending, LedgersOf(start.records, k), terms)
  {
    OpenStanding(b, plans, remaining, plan, start.records, k, terms);
    forall key | key in Overflowed(b.pending, start.records, k) ensures NumbersGone(Names(start), key) {
      OverflowedAreGone(b.pending, start, k, key);
    }
  }

  /** A round with nobody left to run ends the stage. */
  lemma StageFinishes(b: Books, b': Books, start: Dir, dir: Dir, keys: seq<ConfigKey>, specs: seq<ConfigKey>,
                      k: ProtocolConstants, terms: Terms, over: set<ConfigKey>, stopRule: bool, t: seq<Event>)
    requires Running(b', start, dir, keys, k, terms, over, stopRule, t) && Distinct(keys) && SameKeys(keys, specs)
    requires b'.pending == b.pending && b'.checked == b.checked && k.maxConfigAttempts >= 1
    requires Drawn([], b'.left, b'.next, b'.pending, |b'.pending|)
    requires forall key | key in b.pending && Of(b.left, key) == 0 :: key in b.checked
    requires forall key :: Of(b'.left, key) == Of(b.left, key) || key in over
    ensures StageEnds(dir, Finished(b'.passed, b'.pending, None), specs, k, stopRule, t)
    ensures terms.tracked ==> StageSettles(dir, Finished(b'.passed, b'.pending, None), k, stopRule)
  {
    SamePartition(b'.passed, b'.pending, keys, specs);
    if terms.tracked {
      assert b'.pending[..|b'.pending|] == b'.pending;
      forall key | key in b'.pending ensures NumbersGone(Names(dir), key) || Classified(dir.records, k, key, stopRule) {
        FailedAreClassified(b', dir, keys, k, terms, over, stopRule, key);
      }
      Passing(b', dir, keys, k, terms, over);
    }
  }

  lemma StageStops(b: Books, start: Dir, dir: Dir, keys: seq<ConfigKey>, specs: seq<ConfigKey>, k: ProtocolConstants,
                   terms: Terms, over: set<ConfigKey>, stopRule: bool, t: seq<Event>)
    requires Running(b, start, dir, keys, k, terms, over, stopRule, t) && Distinct(keys) && SameKeys(keys, specs)
    ensures Partition(b.passed, b.pending, specs)
    ensures terms.tracked ==> forall key | key in b.passed :: HighestPasses(RunsOf(dir.records, key), k)
  {
    SamePartition(b.passed, b.pending, keys, specs);
    if terms.tracked { Passing(b, dir, keys, k, terms, over); }
  }

  lemma DistinctPlansFrom(distinct: seq<Planned>, specs: seq<Planned>, remaining: map<ConfigKey, u32>,
                          plan: map<ConfigKey, ResumeState>, records: seq<RunRecord>, k: ProtocolConstants)
    requires FromPlan(specs, remaining, plan, records, k) && forall p | p in distinct :: FirstListed(p, specs)
    ensures FromPlan(distinct, remaining, plan, records, k)
  {
  }

  /** One turn of the orchestrator's loop: the stop check, the plan of a round, and the round. */
  method RunRound(b: Books, start: Dir, dir: Dir, ghost keys: seq<ConfigKey>, ghost specs: seq<ConfigKey>,
                  k: ProtocolConstants, stopRule: bool, ghost terms: Terms, ghost over: set<ConfigKey>,
                  ghost t: seq<Event>)
    returns (b': Books, dir': Dir, ending: Option<Ending>, ghost over': set<ConfigKey>, ghost t': seq<Event>)
    requires k.repetitions >= 1 && k.maxConfigAttempts >= 1 && Distinct(keys) && SameKeys(keys, specs)
    requires Running(b, start, dir, keys, k, terms, over, stopRule, t)
    requires Lined(b.left, b.next, b.pending, LedgersOf(dir.records, k), terms)
    ensures StageKeeps(start, dir', specs, k, terms, t')
    ensures ending.Some? && ending.value.Finished? ==>
              && StageEnds(dir', ending.value, specs, k, stopRule, t')
              && (terms.tracked ==> StageSettles(dir', ending.value, k, stopRule))
    ensures ending.None? ==> Running(b', start, dir', keys, k, terms, over', stopRule, t')
    ensures ending.None? ==> Lined(b'.left, b'.next, b'.pending, LedgersOf(dir'.records, k), terms)
    ensures ending.None? ==> Total(b'.left, b'.pending) < Total(b.left, b.pending)
  {
    SameUntouched(keys, specs, start.records, dir.records);
    StageStops(b, start, dir, keys, specs, k, terms, over, stopRule, t);
    dir', over' := dir, over;
    var verdict;
    b', verdict, t' := StopCheck(b, dir, k, stopRule, Names(start), t);
    if verdict.CheckFailed? {
      return b', dir', Some(Interrupted), over', t';
    }
    if verdict.StoppedBy? {
      return b', dir', Some(Finished(b.passed, b.pending, Some(verdict.key))), over', t';
    }
    var planned, active, ok;
    planned, active, ok, over' := PlanRound(b', dir, k.repetitions, LedgersOf(dir.records, k), terms,
                                            k.maxConfigAttempts, over);
    if !ok {
      return planned, dir', Some(Interrupted), over', t';
    }
    if active == [] {
      StageFinishes(b', planned, start, dir, keys, specs, k, terms, over', stopRule, t');
      return planned, dir', Some(Finished(planned.passed, planned.pending, None)), over', t';
    }
    TotalFrame(planned.left, b.left, b.pending);
    if terms.tracked { PlansAreNextFree(b', planned, dir, k, active, terms); }
    var status;
    b', dir', status, over', t' := PlayRound(planned, start, dir, active, keys, k, terms, over', stopRule, t');
    SameUntouched(keys, specs, start.records, dir'.records);
    ending := if status == Halt then Some(Interrupted) else None;
  }

  /**
    `run_configs_with_stop`: rounds until everyone has passed or spent the budget, from any first
    attempts and budgets. On tracked terms the specs and budgets come from a plan of the stored records.
    */
  method RunConfigs(start: Dir, specs: seq<Planned>, remaining: map<ConfigKey, u32>, k: ProtocolConstants,
                    stopRule: bool, ghost plan: map<ConfigKey, ResumeState>, ghost terms: Terms)
    returns (dir: Dir, ending: Ending, ghost t: seq<Event>)
    requires k.repetitions >= 1 && k.maxConfigAttempts >= 1
    requires (terms.tracked ==> FromPlan(specs, remaining, plan, start.records, k)) && Within(start.records, k, terms)
    ensures StageKeeps(start, dir, KeysOf(specs), k, terms, t)
    ensures ending.Finished? ==> StageEnds(dir, ending, KeysOf(specs), k, stopRule, t)
    ensures ending.Finished? && terms.tracked ==> StageSettles(dir, ending, k, stopRule)
  {
    var plans := Deduplicate(specs);
    if terms.tracked { DistinctPlansFrom(plans, specs, remaining, plan, start.records, k); }
    var b := OpenBooks(plans, remaining, k.maxConfigAttempts);
    dir, t := start, [];
    ghost var keys := KeysOf(plans);
    ghost var over := Overflowed(b.pending, start.records, k);
    StageOpens(b, start, plans, remaining, plan, k, terms, stopRule);
    while true
      invariant Running(b, start, dir, keys, k, terms, over, stopRule, t)
      invariant Lined(b.left, b.next, b.pending, LedgersOf(dir.records, k), terms)
      decreases Total(b.left, b.pending)
    {
      var ended;
      b, dir, ended, over, t := RunRound(b, start, dir, keys, KeysOf(specs), k, stopRule, terms, over, t);
      if ended.Some? {
        return dir, ended.value, t;
      }
    }
  }

  // ---------------------------------------------------------------- reporting a recorded open-loop stage

  datatype Unsustained = Unsustained(key: ConfigKey, rows: seq<CapacityRow>)

  /** An entry publishes a configuration as not sustained, with the capacity rows that show it. */
  ghost predicate Publishable(u: Unsustained, records: seq<RunRecord>, k: ProtocolConstants) {
    && OutcomeOf(RunsOf(records, u.key), k) == NotSustained(u.rows)
    && u.rows != [] && ListsRows(RunsOf(records, u.key), k.repetitions, u.rows)
  }

  predicate Publishes(us: seq<Unsustained>, key: ConfigKey) {
    exists u | u in us :: u.key == key
  }

  ghost predicate AllPublishable(us: seq<Unsustained>, keys: seq<ConfigKey>, records: seq<RunRecord>,
                                 k: ProtocolConstants) {
    forall u | u in us :: u.key in keys && Publishable(u, records, k)
  }

  lemma OneMorePublishable(us: seq<Unsustained>, u: Unsustained, keys: seq<ConfigKey>, records: seq<RunRecord>,
                           k: ProtocolConstants)
    requires AllPublishable(us, keys, records, k) && u.key in keys && Publishable(u, records, k)
    ensures AllPublishable(us + [u], keys, records, k)
  {
    forall v | v in us + [u] ensures v.key in keys && Publishable(v, records, k) {
      assert v in us || v == u;
    }
  }

  /** Each of the first `i` configurations is in one of the two lists. */
  ghost predicate Covered(keys: seq<ConfigKey>, us: seq<Unsustained>, failed: seq<ConfigKey>, i: nat)
    requires i <= |keys|
  {
    forall j | 0 <= j < i :: keys[j] in failed || Publishes(us, keys[j])
  }

  lemma OneMoreCovered(keys: seq<ConfigKey>, us: seq<Unsustained>, failed: seq<ConfigKey>, i: nat, u: Unsustained)
    requires i < |keys| && Covered(keys, us, failed, i) && u.key == keys[i]
    ensures Covered(keys, us + [u], failed, i + 1)
  {
    assert u in us + [u] && forall v | v in us :: v in us + [u];
  }

  /** The first `i` failed configurations are published or reported. */
  ghost predicate Reporting(dir: Dir, ending: Ending, k: ProtocolConstants, us: seq<Unsustained>,
                            failed: seq<ConfigKey>, i: nat)
    requires ending.Finished? && i <= |ending.failed|
  {
    && AllPublishable(us, ending.failed, dir.records, k)
    && (forall key | key in failed :: Unpublished(dir, ending, k, key))
    && (if ending.stopped.None? then |us| + |failed| == i else failed == [])
    && (ending.stopped.None? ==> Covered(ending.failed, us, failed, i))
  }

  /** A failed configuration that is out of attempt numbers and not a published result. */
  ghost predicate Unpublished(dir: Dir, ending: Ending, k: ProtocolConstants, key: ConfigKey)
    requires ending.Finished?
  {
    && key in ending.failed && ending.stopped.None? && NumbersGone(Names(dir), key)
    && !OutcomeOf(RunsOf(dir.records, key), k).NotSustained?
  }

  lemma PublishStep(dir: Dir, ending: Ending, k: ProtocolConstants, us: seq<Unsustained>, failed: seq<ConfigKey>,
                    i: nat, u: Unsustained)
    requires ending.Finished? && i < |ending.failed| && Reporting(dir, ending, k, us, failed, i)
    requires u.key == ending.failed[i] && Publishable(u, dir.records, k)
    ensures Reporting(dir, ending, k, us + [u], failed, i + 1)
  {
    OneMorePublishable(us, u, ending.failed, dir.records, k);
    if ending.stopped.None? { OneMoreCovered(ending.failed, us, failed, i, u); }
  }

  lemma FailStep(dir: Dir, ending: Ending, k: ProtocolConstants, us: seq<Unsustained>, failed: seq<ConfigKey>, i: nat)
    requires ending.Finished? && i < |ending.failed| && Reporting(dir, ending, k, us, failed, i)
    requires StageSettles(dir, ending, k, true) && !OutcomeOf(RunsOf(dir.records, ending.failed[i]), k).NotSustained?
    ensures Reporting(dir, ending, k, us, if ending.stopped.None? then failed + [ending.failed[i]] else failed, i + 1)
  {
    assert ending.failed[i] in ending.failed;
  }

  /** Failed configurations are published as not sustained, or reported when nothing stopped the session. */
  method ReportFailed(dir: Dir, ending: Ending, k: ProtocolConstants)
    returns (notSustained: seq<Unsustained>, failed: seq<ConfigKey>)
    requires ending.Finished? && StageSettles(dir, ending, k, true) && k.maxConfigAttempts >= 1
    ensures forall u | u in notSustained :: u.key in ending.failed && Publishable(u, dir.records, k)
    ensures forall key | key in failed ::
              && key in ending.failed && ending.stopped.None?
              && NumbersGone(Names(dir), key) && !Publishes(notSustained, key)
    ensures ending.stopped.None? ==> forall key | key in ending.failed :: key in failed || Publishes(notSustained, key)
    ensures if ending.stopped.None? then |notSustained| + |failed| == |ending.failed| else failed == []
  {
    notSustained, failed := [], [];
    for i := 0 to |ending.failed|
      invariant Reporting(dir, ending, k, notSustained, failed, i)
    {
      var key := ending.failed[i];
      var outcome := ClassifyOpenLoop(RunsOf(dir.records, key), k);
      if outcome.NotSustained? {
        NotSustainedRows(RunsOf(dir.records, key), k);
        PublishStep(dir, ending, k, notSustained, failed, i, Unsustained(key, outcome.rows));
        notSustained := notSustained + [Unsustained(key, outcome.rows)];
      } else {
        FailStep(dir, ending, k, notSustained, failed, i);
        failed := if ending.stopped.None? then failed + [key] else failed;
      }
    }
  }

  // ---------------------------------------------------------------- sessions and campaigns

  /** One call of the orchestrator in a session: its configurations, and whether exhaustion stops it. */
  datatype Stage = Stage(keys: seq<ConfigKey>, stopRule: bool)

  /** No configuration belongs to two stages. */
  ghost predicate Separate(stages: seq<Stage>) {
    forall i, j, key | 0 <= i < j < |stages| && key in stages[i].keys :: key !in stages[j].keys
  }

  /** What a stage adds to the outcome of its session. */
  datatype StageResult = StageResult(
    passed: seq<ConfigKey>, failed: seq<ConfigKey>, notSustained: seq<Unsustained>, stopped: Option<ConfigKey>)

  /** The lists hold configurations of the stage, none in two of them, and all unless the stage was stopped. */
  ghost predicate Sorts(stage: Stage, r: StageResult) {
    && (forall key | key in r.passed :: key in stage.keys && key !in r.failed && !Publishes(r.notSustained, key))
    && (forall key | key in r.failed :: key in stage.keys && !Publishes(r.notSustained, key))
    && (forall u | u in r.notSustained :: u.key in stage.keys)
    && (r.stopped.None? ==>
          forall key | key in stage.keys :: key in r.passed || key in r.failed || Publishes(r.notSustained, key))
    && (r.stopped.Some? ==> r.stopped.value in stage.keys)
  }

  /** What the stored records say of every configuration listed. */
  ghost predicate Confirmed(dir: Dir, stopRule: bool, r: StageResult, k: ProtocolConstants) {
    && (forall key | key in r.passed :: HighestPasses(RunsOf(dir.records, key), k))
    && (forall key | key in r.failed ::
          NumbersGone(Names(dir), key) || (!stopRule && Classified(dir.records, k, key, stopRule)))
    && (forall u | u in r.notSustained :: Publishable(u, dir.records, k))
    && (!stopRule ==> r.notSustained == [] && r.stopped.None?)
    && (r.stopped.Some? ==> r.failed == [] && IsExhausted(dir.records, k, r.stopped.value))
  }

  /** A stage's result stays confirmed while its own configurations are left alone. */
  lemma ConfirmedOutlives(dir: Dir, dir': Dir, stage: Stage, r: StageResult, k: ProtocolConstants)
    requires Sorts(stage, r) && Confirmed(dir, stage.stopRule, r, k) && Names(dir) <= Names(dir')
    requires forall key | key in stage.keys :: RunsOf(dir'.records, key) == RunsOf(dir.records, key)
    ensures Confirmed(dir', stage.stopRule, r, k)
  {
  }

  predicate Unstopped(rs: seq<StageResult>) {
    forall i | 0 <= i < |rs| :: rs[i].stopped.None?
  }

  ghost predicate AllConfirmed(dir: Dir, stages: seq<Stage>, rs: seq<StageResult>, k: ProtocolConstants) {
    && |rs| <= |stages|
    && forall i | 0 <= i < |rs| :: Sorts(stages[i], rs[i]) && Confirmed(dir, stages[i].stopRule, rs[i], k)
  }

  /** The outcome of a session that was not interrupted: one result per stage, up to the one that stopped it. */
  ghost predicate SessionReported(dir: Dir, stages: seq<Stage>, rs: seq<StageResult>, k: ProtocolConstants) {
    && AllConfirmed(dir, stages, rs, k)
    && (|rs| < |stages| ==> rs != [] && rs[|rs| - 1].stopped.Some?)
    && (rs != [] ==> Unstopped(rs[..|rs| - 1]))
  }

  /** Across sessions: a name is dispatched again only when an earlier run under it left no file at all. */
  ghost predicate CampaignTrace(t: seq<Event>, before: set<Name>, after: set<Name>, n: nat) {
    && before <= after
    && (forall i | 0 <= i < |t| && t[i].Dispatch? ::
          && t[i].name !in before && NextFree(t[i].over, t[i].name.key, t[i].name.attempt, n)
          && (t[i].stored ==> t[i].kept) && (t[i].kept ==> t[i].name in after))
    && (forall i, j | 0 <= i < j < |t| && t[i].Dispatch? && t[j].Dispatch? && t[i].name == t[j].name :: !t[i].kept)
  }

  lemma JoinTraces(t: seq<Event>, u: seq<Event>, before: set<Name>, middle: set<Name>, after: set<Name>, n: nat)
    requires CampaignTrace(t, before, middle, n) && CampaignTrace(u, middle, after, n)
    ensures CampaignTrace(t + u, before, after, n)
  {
  }

  /** `plan_spec` over the configurations of a stage: those the plan does not skip, at the number it gives. */
  method PlanSpecs(keys: seq<ConfigKey>, plan: map<ConfigKey, ResumeState>)
    returns (specs: seq<Planned>, skipped: seq<ConfigKey>)
    ensures forall s | s in specs :: s.attempt == PlannedAttempt(plan, s.key)
    ensures forall key :: key in KeysOf(specs) <==> key in keys && !(key in plan && plan[key].HasPassed?)
    ensures forall key :: key in skipped <==> key in keys && key in plan && plan[key].HasPassed?
  {
    specs, skipped := [], [];
    for i := 0 to |keys|
      invariant forall s | s in specs :: s.attempt == PlannedAttempt(plan, s.key)
      invariant forall key :: key in KeysOf(specs) <==> key in keys[..i] && !(key in plan && plan[key].HasPassed?)
      invariant forall key :: key in skipped <==> key in keys[..i] && key in plan && plan[key].HasPassed?
    {
      assert keys[..i + 1] == keys[..i] + [keys[i]];
      if keys[i] in plan && plan[keys[i]].HasPassed? {
        skipped := skipped + [keys[i]];
      } else {
        var spec := Planned(keys[i], PlannedAttempt(plan, keys[i]));
        assert KeysOf(specs + [spec]) == KeysOf(specs) + [keys[i]];
        specs := specs + [spec];
      }
    }
    assert keys[..|keys|] == keys;
  }

  lemma PlannedFromPlan(specs: seq<Planned>, plan: map<ConfigKey, ResumeState>, records: seq<RunRecord>,
                        k: ProtocolConstants, stages: seq<Stage>, i: nat)
    requires i < |stages| && PlanHolds(plan, records, k, stages, i)
    requires forall s | s in specs :: s.attempt == PlannedAttempt(plan, s.key)
    requires forall key | key in KeysOf(specs) :: key in stages[i].keys && !(key in plan && plan[key].HasPassed?)
    ensures FromPlan(specs, Remaining(plan), plan, records, k)
  {
    forall j | 0 <= j < |specs|
      ensures UpToDate(plan, specs[j].key, RunsOf(records, specs[j].key), k)
      ensures !(specs[j].key in plan && plan[specs[j].key].HasPassed?)
    {
      assert KeysOf(specs)[j] == specs[j].key;
    }
  }

  ghost predicate PlanHolds(plan: map<ConfigKey, ResumeState>, records: seq<RunRecord>, k: ProtocolConstants,
                            stages: seq<Stage>, i: nat) {
    forall j, key | i <= j < |stages| && key in stages[j].keys :: UpToDate(plan, key, RunsOf(records, key), k)
  }

  lemma FreshPlanHolds(plan: map<ConfigKey, ResumeState>, records: seq<RunRecord>, k: ProtocolConstants,
                       stages: seq<Stage>)
    requires PlanOf(plan, records, k)
    ensures PlanHolds(plan, records, k, stages, 0)
  {
    forall j, key | 0 <= j < |stages| && key in stages[j].keys ensures UpToDate(plan, key, RunsOf(records, key), k) {
      RunsOfKey(records, key);
    }
  }

  lemma PlanOutlivesStage(plan: map<ConfigKey, ResumeState>, before: seq<RunRecord>, after: seq<RunRecord>,
                          k: ProtocolConstants, stages: seq<Stage>, i: nat, specs: seq<ConfigKey>)
    requires PlanHolds(plan, before, k, stages, i) && i < |stages| && Separate(stages)
    requires (forall key | key in specs :: key in stages[i].keys) && Untouched(specs, before, after)
    ensures PlanHolds(plan, after, k, stages, i + 1)
  {
    forall j, key | i + 1 <= j < |stages| && key in stages[j].keys ensures UpToDate(plan, key, RunsOf(after, key), k) {
      assert key !in specs;
    }
  }

  /** What the planned and the skipped configurations of a stage are to it. */
  ghost predicate Divides(stage: Stage, plan: map<ConfigKey, ResumeState>, specs: seq<ConfigKey>,
                          skipped: seq<ConfigKey>) {
    && (forall key :: key in specs <==> key in stage.keys && !(key in plan && plan[key].HasPassed?))
    && (forall key :: key in skipped <==> key in stage.keys && key in plan && plan[key].HasPassed?)
  }

  lemma SkippedHavePassed(dir: Dir, plan: map<ConfigKey, ResumeState>, k: ProtocolConstants, stages: seq<Stage>, i: nat,
                          specs: seq<ConfigKey>, skipped: seq<ConfigKey>, dir': Dir)
    requires i < |stages| && PlanHolds(plan, dir.records, k, stages, i) && Divides(stages[i], plan, specs, skipped)
    requires Untouched(specs, dir.records, dir'.records)
    ensures forall key | key in skipped :: HighestPasses(RunsOf(dir'.records, key), k)
  {
    forall key | key in skipped ensures HighestPasses(RunsOf(dir'.records, key), k) {
      assert UpToDate(plan, key, RunsOf(dir.records, key), k) && key !in specs;
    }
  }

  /** The result of a finished stage; reading the records back may fail. */
  method ReportStage(dir: Dir, stage: Stage, ending: Ending, k: ProtocolConstants,
                     ghost plan: map<ConfigKey, ResumeState>, ghost specs: seq<ConfigKey>, skipped: seq<ConfigKey>,
                     ghost t: seq<Event>)
    returns (r: Option<StageResult>)
    requires ending.Finished? && StageEnds(dir, ending, specs, k, stage.stopRule, t) && k.maxConfigAttempts >= 1
    requires StageSettles(dir, ending, k, stage.stopRule) && Divides(stage, plan, specs, skipped)
    requires forall key | key in skipped :: HighestPasses(RunsOf(dir.records, key), k)
    ensures r.Some? ==> Sorts(stage, r.value) && Confirmed(dir, stage.stopRule, r.value, k)
    ensures r.Some? ==> r.value.stopped == ending.stopped
  {
    if !stage.stopRule {
      return Some(StageResult(ending.passed + skipped, ending.failed, [], None));
    }
    if ending.failed != [] {
      if * {
        return None;
      }
    }
    var notSustained, failed := ReportFailed(dir, ending, k);
    r := Some(StageResult(ending.passed + skipped, failed, notSustained, ending.stopped));
  }

  /** One stage of a session, from its plan to its result; `None` when it is interrupted. */
  method RunStage(start: Dir, stages: seq<Stage>, i: nat, plan: map<ConfigKey, ResumeState>, k: ProtocolConstants,
                  ghost terms: Terms)
    returns (dir: Dir, r: Option<StageResult>, ghost t: seq<Event>)
    requires k.repetitions >= 1 && k.maxConfigAttempts >= 1 && i < |stages| && Separate(stages)
    requires terms.tracked && Within(start.records, k, terms) && PlanHolds(plan, start.records, k, stages, i)
    ensures Within(dir.records, k, terms) && CampaignTrace(t, Names(start), Names(dir), k.repetitions)
    ensures PlanHolds(plan, dir.records, k, stages, i + 1)
    ensures Untouched(stages[i].keys, start.records, dir.records)
    ensures r.Some? ==> Sorts(stages[i], r.value) && Confirmed(dir, stages[i].stopRule, r.value, k)
  {
    var specs, skipped := PlanSpecs(stages[i].keys, plan);
    ghost var keys := KeysOf(specs);
    PlannedFromPlan(specs, plan, start.records, k, stages, i);
    var ending;
    dir, ending, t := RunConfigs(start, specs, Remaining(plan), k, stages[i].stopRule, plan, terms);
    PlanOutlivesStage(plan, start.records, dir.records, k, stages, i, keys);
    StageLeavesOthers(keys, stages[i].keys, start.records, dir.records);
    r := None;
    if ending.Finished? {
      SkippedHavePassed(start, plan, k, stages, i, keys, skipped, dir);
      r := ReportStage(dir, stages[i], ending, k, plan, keys, skipped, t);
    }
  }

  lemma StageLeavesOthers(specs: seq<ConfigKey>, keys: seq<ConfigKey>, before: seq<RunRecord>, after: seq<RunRecord>)
    requires (forall key | key in specs :: key in keys) && Untouched(specs, before, after)
    ensures Untouched(keys, before, after)
  {
  }

  /** A further stage leaves the earlier results confirmed. */
  lemma ReportsOutliveStage(stages: seq<Stage>, dir: Dir, dir': Dir, rs: seq<StageResult>, k: ProtocolConstants)
    requires Separate(stages) && |rs| < |stages| && Names(dir) <= Names(dir') && AllConfirmed(dir, stages, rs, k)
    requires Untouched(stages[|rs|].keys, dir.records, dir'.records)
    ensures AllConfirmed(dir', stages, rs, k)
  {
    forall j | 0 <= j < |rs| ensures Confirmed(dir', stages[j].stopRule, rs[j], k) {
      forall key | key in stages[j].keys ensures RunsOf(dir'.records, key) == RunsOf(dir.records, key) {
        assert key !in stages[|rs|].keys;
      }
      ConfirmedOutlives(dir, dir', stages[j], rs[j], k);
    }
  }

  lemma OneMoreResult(stages: seq<Stage>, dir: Dir, rs: seq<StageResult>, r: StageResult, k: ProtocolConstants)
    requires |rs| < |stages| && AllConfirmed(dir, stages, rs, k)
    requires Sorts(stages[|rs|], r) && Confirmed(dir, stages[|rs|].stopRule, r, k) && Unstopped(rs)
    ensures AllConfirmed(dir, stages, rs + [r], k)
    ensures if r.stopped.Some? then SessionReported(dir, stages, rs + [r], k) else Unstopped(rs + [r])
  {
    assert (rs + [r])[..|rs|] == rs;
  }

  /**
    One session: plan from the stored records, then the stages in turn until one halts it. A session
    that is not interrupted sorts the configurations of every stage it ran, and the records at its end
    confirm every entry.
    */
  method RunSession(start: Dir, stages: seq<Stage>, k: ProtocolConstants, ghost terms: Terms)
    returns (dir: Dir, outcome: Option<seq<StageResult>>, ghost t: seq<Event>)
    requires k.repetitions >= 1 && k.maxConfigAttempts >= 1 && Separate(stages)
    requires terms.tracked && Within(start.records, k, terms)
    ensures Within(dir.records, k, terms) && CampaignTrace(t, Names(start), Names(dir), k.repetitions)
    ensures outcome.Some? ==> SessionReported(dir, stages, outcome.value, k)
  {
    var plan := ResumePlan(start.records, k);
    FreshPlanHolds(plan, start.records, k, stages);
    dir, t := start, [];
    var rs: seq<StageResult> := [];
    for i := 0 to |stages|
      invariant Within(dir.records, k, terms) && CampaignTrace(t, Names(start), Names(dir), k.repetitions)
      invariant PlanHolds(plan, dir.records, k, stages, i)
      invariant AllConfirmed(dir, stages, rs, k) && |rs| == i && Unstopped(rs)
    {
      ghost var before := dir;
      ghost var more;
      var r;
      dir, r, more := RunStage(dir, stages, i, plan, k, terms);
      JoinTraces(t, more, Names(start), Names(before), Names(dir), k.repetitions);
      ReportsOutliveStage(stages, before, dir, rs, k);
      t := t + more;
      if r.None? {
        return dir, None, t;
      }
      OneMoreResult(stages, dir, rs, r.value, k);
      rs := rs + [r.value];
      if r.value.stopped.Some? {
        return dir, Some(rs), t;
      }
    }
    outcome := Some(rs);
  }

  /**
    Any number of sessions over one directory, each interrupted anywhere or not at all: no
    configuration ever has more complete attempts than its budget, every run goes to the first number
    above all stored attempts of its configuration that no file holds, and no name is dispatched again
    unless an earlier run under it left no file.
    */
  method RunCampaign(start: Dir, sessions: seq<seq<Stage>>, k: ProtocolConstants)
    returns (dir: Dir, ghost t: seq<Event>)
    requires k.repetitions >= 1 && k.maxConfigAttempts >= 1 && forall s | s in sessions :: Separate(s)
    ensures forall key: ConfigKey ::
              |Completed(RunsOf(dir.records, key), k.repetitions)|
              <= Max(k.maxConfigAttempts, |Completed(RunsOf(start.records, key), k.repetitions)|)
    ensures CampaignTrace(t, Names(start), Names(dir), k.repetitions)
  {
    dir, t := start, [];
    ghost var terms := Terms(true, key => LedgerOf(RunsOf(start.records, key), k).complete);
    for i := 0 to |sessions|
      invariant Within(dir.records, k, terms) && CampaignTrace(t, Names(start), Names(dir), k.repetitions)
    {
      ghost var before := dir;
      ghost var more;
      var outcome;
      dir, outcome, more := RunSession(dir, sessions[i], k, terms);
      JoinTraces(t, more, Names(start), Names(before), Names(dir), k.repetitions);
      t := t + more;
    }
    forall key: ConfigKey
      ensures |Completed(RunsOf(dir.records, key), k.repetitions)|
           <= Max(k.maxConfigAttempts, |Completed(RunsOf(start.records, key), k.repetitions)|)
    {
      assert LedgerOf(RunsOf(dir.records, key), k).complete <= Max(k.maxConfigAttempts, terms.base(key));
    }
  }
}
