/** The books of a session: budgets, attempt numbers, and who is still pending. */
module Rounds {
  import opened Arith
  import opened RunRecords
  import opened Outcome
  import opened Resume
  import opened Ledgers
  import opened Matrix
  import opened Statistics

  datatype Books = Books(
    left: map<ConfigKey, u32>,
    next: map<ConfigKey, u32>,
    checked: set<ConfigKey>,
    passed: seq<ConfigKey>,
    pending: seq<ConfigKey>)

  function Of(m: map<ConfigKey, u32>, key: ConfigKey): u32 {
    if key in m then m[key] else 0
  }

  predicate Distinct(keys: seq<ConfigKey>) {
    forall i, j | 0 <= i < j < |keys| :: keys[i] != keys[j]
  }

  /** The total budget of a list of configurations. */
  function Total(left: map<ConfigKey, u32>, keys: seq<ConfigKey>): nat {
    if keys == [] then 0 else Total(left, keys[..|keys| - 1]) + Of(left, keys[|keys| - 1])
  }

  lemma {:induction false} TotalFrame(a: map<ConfigKey, u32>, b: map<ConfigKey, u32>, keys: seq<ConfigKey>)
    requires forall key | key in keys :: Of(a, key) <= Of(b, key)
    ensures Total(a, keys) <= Total(b, keys)
  {
    if keys != [] { TotalFrame(a, b, keys[..|keys| - 1]); }
  }

  /** The complete attempts every configuration began with, and whether its budget was planned from them. */
  datatype Terms = Terms(tracked: bool, base: ConfigKey -> nat)

  /** On tracked terms, every listed configuration has the standing its budget claims. */
  ghost predicate Standing(left: map<ConfigKey, u32>, next: map<ConfigKey, u32>, keys: seq<ConfigKey>,
                           lg: ConfigKey -> Ledger, terms: Terms, max: nat, over: set<ConfigKey>) {
    terms.tracked ==>
      forall key | key in keys :: Budgeted(lg(key), Of(left, key), Of(next, key), max, terms.base(key), key in over)
  }

  /** On tracked terms, whoever has a budget goes on at the first number above its attempts. */
  ghost predicate Lined(left: map<ConfigKey, u32>, next: map<ConfigKey, u32>, keys: seq<ConfigKey>,
                        lg: ConfigKey -> Ledger, terms: Terms) {
    terms.tracked ==> forall key | key in keys && Of(left, key) > 0 :: Of(next, key) == Max(lg(key).above, 1)
  }

  // ---------------------------------------------------------------- planning a round

  /** The plans drawn from the first `i` pending configurations. */
  ghost predicate Drawn(active: seq<Planned>, left: map<ConfigKey, u32>, next: map<ConfigKey, u32>,
                        pending: seq<ConfigKey>, i: nat)
    requires i <= |pending|
  {
    && (forall p | p in active :: p.key in pending[..i] && Of(left, p.key) > 0 && Of(next, p.key) == p.attempt)
    && (forall key | key in pending[..i] && Of(left, key) > 0 :: Planned(key, Of(next, key)) in active)
  }

  lemma DrawNone(active: seq<Planned>, left: map<ConfigKey, u32>, next: map<ConfigKey, u32>, pending: seq<ConfigKey>,
                 i: nat)
    requires i < |pending| && Distinct(pending) && Drawn(active, left, next, pending, i)
    ensures Drawn(active, left[pending[i] := 0], next, pending, i + 1)
    ensures Of(left, pending[i]) == 0 ==> Drawn(active, left, next, pending, i + 1)
  {
    assert pending[..i + 1] == pending[..i] + [pending[i]];
    assert pending[i] !in pending[..i];
  }

  lemma DrawOne(active: seq<Planned>, left: map<ConfigKey, u32>, next: map<ConfigKey, u32>, pending: seq<ConfigKey>,
                i: nat, a: u32)
    requires i < |pending| && Distinct(pending) && Drawn(active, left, next, pending, i) && Of(left, pending[i]) > 0
    requires DistinctPlans(active)
    ensures Drawn(active + [Planned(pending[i], a)], left, next[pending[i] := a], pending, i + 1)
    ensures DistinctPlans(active + [Planned(pending[i], a)])
  {
    var key := pending[i];
    assert pending[..i + 1] == pending[..i] + [key];
    assert key !in pending[..i];
    var more := active + [Planned(key, a)];
    forall j | 0 <= j < |active| ensures active[j].key != key { assert active[j] in active; }
    assert Planned(key, a) in more;
    forall x | x in pending[..i + 1] && Of(left, x) > 0 ensures Planned(x, Of(next[key := a], x)) in more {
      if x != key { assert Planned(x, Of(next, x)) in active; }
    }
  }

  /** A later attempt number, or none at all, keeps every standing. */
  lemma StandingPlanned(left: map<ConfigKey, u32>, next: map<ConfigKey, u32>, keys: seq<ConfigKey>,
                        lg: ConfigKey -> Ledger, terms: Terms, max: nat, over: set<ConfigKey>, key: ConfigKey, a: u32)
    requires Standing(left, next, keys, lg, terms, max, over) && a >= Of(next, key)
    ensures Standing(left, next[key := a], keys, lg, terms, max, over)
    ensures Standing(left[key := 0], next, keys, lg, terms, max, over + {key})
  {
  }

  /** What planning has done after the first `i` pending configurations. */
  ghost predicate Planning(b: Books, c: Books, active: seq<Planned>, i: nat, names: set<Name>, n: nat,
                           lg: ConfigKey -> Ledger, terms: Terms, max: nat, over: set<ConfigKey>, over': set<ConfigKey>)
    requires i <= |b.pending|
  {
    && c == b.(left := c.left, next := c.next)
    && Standing(c.left, c.next, b.pending, lg, terms, max, over')
    && over <= over' && (forall key | key in over' :: NumbersGone(names, key))
    && (forall key :: Of(c.left, key) == Of(b.left, key) || (Of(c.left, key) == 0 && key in over'))
    && PlansOk(active, names, n)
    && (forall p | p in active :: Skips(names, p.key, Of(b.next, p.key), p.attempt, n))
    && (forall j | i <= j < |b.pending| :: Of(c.next, b.pending[j]) == Of(b.next, b.pending[j]))
    && Drawn(active, c.left, c.next, b.pending, i)
  }

  lemma PlansNone(b: Books, c: Books, active: seq<Planned>, i: nat, names: set<Name>, n: nat, lg: ConfigKey -> Ledger,
                  terms: Terms, max: nat, over: set<ConfigKey>, over': set<ConfigKey>)
    requires i < |b.pending| && Distinct(b.pending)
    requires Planning(b, c, active, i, names, n, lg, terms, max, over, over')
    ensures Of(c.left, b.pending[i]) == 0 ==> Planning(b, c, active, i + 1, names, n, lg, terms, max, over, over')
    ensures NumbersGone(names, b.pending[i]) ==>
              Planning(b, c.(left := c.left[b.pending[i] := 0]), active, i + 1, names, n, lg, terms, max, over,
                       over' + {b.pending[i]})
  {
    DrawNone(active, c.left, c.next, b.pending, i);
    StandingPlanned(c.left, c.next, b.pending, lg, terms, max, over', b.pending[i], Of(c.next, b.pending[i]));
  }

  lemma PlansOne(b: Books, c: Books, active: seq<Planned>, i: nat, names: set<Name>, n: nat, lg: ConfigKey -> Ledger,
                 terms: Terms, max: nat, over: set<ConfigKey>, over': set<ConfigKey>, a: u32)
    requires i < |b.pending| && Distinct(b.pending) && Of(c.left, b.pending[i]) > 0
    requires Planning(b, c, active, i, names, n, lg, terms, max, over, over')
    requires Skips(names, b.pending[i], Of(c.next, b.pending[i]), a, n) && Unused(names, b.pending[i], a, n)
    ensures Planning(b, c.(next := c.next[b.pending[i] := a]), active + [Planned(b.pending[i], a)], i + 1, names, n, lg,
                     terms, max, over, over')
  {
    DrawOne(active, c.left, c.next, b.pending, i, a);
    StandingPlanned(c.left, c.next, b.pending, lg, terms, max, over', b.pending[i], a);
  }

  /** The attempts of the next round: one per pending configuration with a budget, at the first unused number. */
  method PlanRound(b: Books, dir: Dir, n: u32, ghost lg: ConfigKey -> Ledger, ghost terms: Terms,
                   ghost max: nat, ghost over: set<ConfigKey>)
    returns (b': Books, active: seq<Planned>, ok: bool, ghost over': set<ConfigKey>)
    requires Distinct(b.pending) && Standing(b.left, b.next, b.pending, lg, terms, max, over)
    requires forall key | key in over :: NumbersGone(Names(dir), key)
    ensures b'.pending == b.pending && b'.passed == b.passed && b'.checked == b.checked
    ensures Standing(b'.left, b'.next, b'.pending, lg, terms, max, over')
    ensures over <= over' && forall key | key in over' :: NumbersGone(Names(dir), key)
    ensures forall key :: Of(b'.left, key) == Of(b.left, key) || (Of(b'.left, key) == 0 && key in over')
    ensures PlansOk(active, Names(dir), n)
    ensures forall p | p in active :: Skips(Names(dir), p.key, Of(b.next, p.key), p.attempt, n)
    ensures ok ==> Drawn(active, b'.left, b'.next, b'.pending, |b'.pending|)
  {
    b', active, over' := b, [], over;
    for i := 0 to |b.pending|
      invariant Planning(b, b', active, i, Names(dir), n, lg, terms, max, over, over')
    {
      var key := b.pending[i];
      PlansNone(b, b', active, i, Names(dir), n, lg, terms, max, over, over');
      if Of(b'.left, key) != 0 {
        var found := FirstUnused(dir, key, Of(b'.next, key), n);
        match found {
          case Failed =>
            return b', active, false, over';
          case NoneLeft =>
            b' := b'.(left := b'.left[key := 0]);
            over' := over' + {key};
          case At(a) =>
            PlansOne(b, b', active, i, Names(dir), n, lg, terms, max, over, over', a);
            b' := b'.(next := b'.next[key := a]);
            active := active + [Planned(key, a)];
        }
      }
    }
    ok := true;
  }

  // ---------------------------------------------------------------- settling a round

  /** Where a finished round leaves one configuration. */
  ghost function NextLedger(b: Books, round: seq<RunRecord>, n: u32, enforceSpread: bool, lg: ConfigKey -> Ledger,
                            key: ConfigKey): Ledger {
    if Of(b.left, key) > 0
    then Ledger(lg(key).complete + 1, Of(b.next, key) + 1, ConfigPasses(RunsOf(round, key), n, enforceSpread))
    else lg(key)
  }

  /** What a finished round did: every configuration with a budget completed its planned attempt. */
  ghost predicate Played(b: Books, round: seq<RunRecord>, n: u32, enforceSpread: bool, lg: ConfigKey -> Ledger,
                         lg': ConfigKey -> Ledger, terms: Terms) {
    forall key | key in b.pending ::
      && (RunsOf(round, key) != [] <==> Of(b.left, key) > 0)
      && (terms.tracked ==> lg'(key) == NextLedger(b, round, n, enforceSpread, lg, key))
  }

  /** The books after the first `i` pending configurations are settled. */
  ghost predicate Settled(b: Books, left: map<ConfigKey, u32>, next: map<ConfigKey, u32>, passed: seq<ConfigKey>,
                          still: seq<ConfigKey>, i: nat, over: set<ConfigKey>, over': set<ConfigKey>)
    requires i <= |b.pending|
  {
    && (forall j | i <= j < |b.pending| ::
          Of(left, b.pending[j]) == Of(b.left, b.pending[j]) && Of(next, b.pending[j]) == Of(b.next, b.pending[j]))
    && Distinct(still) && (forall key | key in still :: key in b.pending[..i])
    && (forall key | key in still && Of(b.left, key) == 0 :: Of(left, key) == 0)
    && multiset(passed) + multiset(still) == multiset(b.passed) + multiset(b.pending[..i])
    && b.passed <= passed
    && over <= over'
    && (forall key | key in over' ::
          key in over || (key in b.pending && Of(b.left, key) > 0 && Of(b.next, key) == U32_MAX))
  }

  lemma TotalStep(left: map<ConfigKey, u32>, left': map<ConfigKey, u32>, keys: seq<ConfigKey>, key: ConfigKey)
    requires forall x | x in keys :: Of(left, x) == Of(left', x)
    ensures Total(left', keys + [key]) == Total(left, keys) + Of(left', key)
  {
    TotalFrame(left, left', keys);
    TotalFrame(left', left, keys);
    assert (keys + [key])[..|keys + [key]| - 1] == keys;
  }

  /** One more configuration stays pending, under new books. */
  lemma StaysStep(b: Books, left: map<ConfigKey, u32>, next: map<ConfigKey, u32>, left': map<ConfigKey, u32>,
                  next': map<ConfigKey, u32>, passed: seq<ConfigKey>, still: seq<ConfigKey>, i: nat,
                  over: set<ConfigKey>, over': set<ConfigKey>, over'': set<ConfigKey>)
    requires i < |b.pending| && Distinct(b.pending) && Settled(b, left, next, passed, still, i, over, over')
    requires forall x | x != b.pending[i] :: Of(left', x) == Of(left, x) && Of(next', x) == Of(next, x)
    requires Of(b.left, b.pending[i]) == 0 ==> Of(left', b.pending[i]) == 0
    requires || over'' == over'
             || (over'' == over' + {b.pending[i]} && Of(b.left, b.pending[i]) > 0
                 && Of(b.next, b.pending[i]) == U32_MAX)
    ensures Settled(b, left', next', passed, still + [b.pending[i]], i + 1, over, over'')
  {
    var key := b.pending[i];
    assert b.pending[..i + 1] == b.pending[..i] + [key];
    assert key !in b.pending[..i] && key in b.pending;
    OneMore(passed, still, b.passed, b.pending[..i], key);
    forall x | x in still + [key] && Of(b.left, x) == 0 ensures Of(left', x) == 0 {
      if x != key { assert x in still; }
    }
  }

  /** One more configuration has passed. */
  lemma PassesStep(b: Books, left: map<ConfigKey, u32>, next: map<ConfigKey, u32>,
                   passed: seq<ConfigKey>, still: seq<ConfigKey>, i: nat, over: set<ConfigKey>, over': set<ConfigKey>)
    requires i < |b.pending| && Distinct(b.pending) && Settled(b, left, next, passed, still, i, over, over')
    ensures Settled(b, left, next, passed + [b.pending[i]], still, i + 1, over, over')
  {
    var key := b.pending[i];
    assert b.pending[..i + 1] == b.pending[..i] + [key];
    OneMore(passed, still, b.passed, b.pending[..i], key);
    assert b.passed <= passed + [key];
  }

  lemma StandingStep(left: map<ConfigKey, u32>, next: map<ConfigKey, u32>, left': map<ConfigKey, u32>,
                     next': map<ConfigKey, u32>, still: seq<ConfigKey>, key: ConfigKey, lg: ConfigKey -> Ledger,
                     terms: Terms, max: nat, over: set<ConfigKey>, over': set<ConfigKey>)
    requires key !in still && Standing(left, next, still, lg, terms, max, over)
    requires forall x | x != key ::
               Of(left', x) == Of(left, x) && Of(next', x) == Of(next, x) && (x in over' <==> x in over)
    requires terms.tracked ==> Budgeted(lg(key), Of(left', key), Of(next', key), max, terms.base(key), key in over')
    ensures Standing(left', next', still + [key], lg, terms, max, over')
  {
  }

  /** A failed attempt costs one of the budget and one number; the last number costs the whole budget. */
  function Charge(left: u32, next: u32): (u32, u32) {
    if next < U32_MAX then (SatSub(left, 1), next + 1) else (0, next)
  }

  lemma ChargeIsBudgeted(l: Ledger, left: u32, next: u32, max: nat, base: nat, over: bool)
    requires Budgeted(l, left, next, max, base, over) && left > 0
    ensures var charged := Charge(left, next);
            Budgeted(Ledger(l.complete + 1, next + 1, false), charged.0, charged.1, max, base, over || next == U32_MAX)
  {
  }

  /** Everything that holds between two configurations of a settlement; `played` of them ran this round. */
  ghost predicate Settling(b: Books, c: Books, i: nat, lg': ConfigKey -> Ledger, terms: Terms, max: nat,
                           over: set<ConfigKey>, over': set<ConfigKey>, played: nat)
    requires i <= |b.pending|
  {
    && c.checked == b.checked
    && Settled(b, c.left, c.next, c.passed, c.pending, i, over, over')
    && Standing(c.left, c.next, c.pending, lg', terms, max, over') && Lined(c.left, c.next, c.pending, lg', terms)
    && (terms.tracked ==> forall j | |b.passed| <= j < |c.passed| :: lg'(c.passed[j]).passes)
    && Total(c.left, c.pending) + played <= Total(b.left, b.pending[..i])
  }

  function Stays(c: Books, key: ConfigKey, left: u32, next: u32): Books {
    c.(left := c.left[key := left], next := c.next[key := next], pending := c.pending + [key])
  }

  function Passes(c: Books, key: ConfigKey): Books {
    c.(passed := c.passed + [key])
  }

  lemma TotalPrefix(left: map<ConfigKey, u32>, keys: seq<ConfigKey>, i: nat)
    requires i < |keys|
    ensures Total(left, keys[..i + 1]) == Total(left, keys[..i]) + Of(left, keys[i])
  {
    assert keys[..i + 1][..i] == keys[..i];
  }

  lemma StayCase(b: Books, c: Books, i: nat, lg': ConfigKey -> Ledger, terms: Terms, max: nat, over: set<ConfigKey>,
                 over': set<ConfigKey>, over'': set<ConfigKey>, played: nat, left: u32, next: u32, cost: nat)
    requires i < |b.pending| && Distinct(b.pending) && Settling(b, c, i, lg', terms, max, over, over', played)
    requires var key := b.pending[i];
             && left + cost <= Of(b.left, key)
             && (terms.tracked ==> Budgeted(lg'(key), left, next, max, terms.base(key), key in over''))
             && (terms.tracked && left > 0 ==> next == Max(lg'(key).above, 1))
             && (over'' == over' || (over'' == over' + {key} && Of(b.left, key) > 0 && Of(b.next, key) == U32_MAX))
    ensures Settling(b, Stays(c, b.pending[i], left, next), i + 1, lg', terms, max, over, over'', played + cost)
  {
    var key := b.pending[i];
    var d := Stays(c, key, left, next);
    assert key !in c.pending by { assert key !in b.pending[..i]; }
    TotalPrefix(b.left, b.pending, i);
    StaysStep(b, c.left, c.next, d.left, d.next, c.passed, c.pending, i, over, over', over'');
    StandingStep(c.left, c.next, d.left, d.next, c.pending, key, lg', terms, max, over', over'');
    TotalStep(c.left, d.left, c.pending, key);
  }

  lemma PassCase(b: Books, c: Books, i: nat, lg': ConfigKey -> Ledger, terms: Terms, max: nat,
                 over: set<ConfigKey>, over': set<ConfigKey>, played: nat)
    requires i < |b.pending| && Distinct(b.pending) && Settling(b, c, i, lg', terms, max, over, over', played)
    requires (terms.tracked ==> lg'(b.pending[i]).passes) && Of(b.left, b.pending[i]) > 0
    ensures Settling(b, Passes(c, b.pending[i]), i + 1, lg', terms, max, over, over', played + 1)
  {
    TotalPrefix(b.left, b.pending, i);
    PassesStep(b, c.left, c.next, c.passed, c.pending, i, over, over');
  }

  /** Judges one pending configuration of a finished round. */
  method SettleOne(b: Books, c: Books, i: nat, groups: map<ConfigKey, seq<RunRecord>>, ghost round: seq<RunRecord>,
                   n: u32, enforceSpread: bool, ghost lg: ConfigKey -> Ledger, ghost lg': ConfigKey -> Ledger,
                   ghost terms: Terms, ghost max: nat, ghost over: set<ConfigKey>, ghost over': set<ConfigKey>,
                   ghost played: nat)
    returns (c': Books, ghost over'': set<ConfigKey>, ghost cost: nat)
    requires i < |b.pending| && Distinct(b.pending) && Standing(b.left, b.next, b.pending, lg, terms, max, over)
    requires Settling(b, c, i, lg', terms, max, over, over', played)
    requires Played(b, round, n, enforceSpread, lg, lg', terms)
    requires b.pending[i] in groups <==> RunsOf(round, b.pending[i]) != []
    requires b.pending[i] in groups ==> groups[b.pending[i]] == RunsOf(round, b.pending[i])
    ensures Settling(b, c', i + 1, lg', terms, max, over, over'', played + cost)
    ensures cost > 0 || Of(b.left, b.pending[i]) == 0
    ensures if b.pending[i] in groups && ConfigFailure(groups[b.pending[i]], n, enforceSpread).None?
            then c' == Passes(c, b.pending[i])
            else c'.passed == c.passed && c'.pending == c.pending + [b.pending[i]]
  {
    var key := b.pending[i];
    var left, next := Of(c.left, key), Of(c.next, key);
    if key !in groups {
      StayCase(b, c, i, lg', terms, max, over, over', over', played, left, next, 0);
      return Stays(c, key, left, next), over', 0;
    }
    if ConfigFailure(groups[key], n, enforceSpread).None? {
      PassCase(b, c, i, lg', terms, max, over, over', played);
      return Passes(c, key), over', 1;
    }
    if terms.tracked { ChargeIsBudgeted(lg(key), left, next, max, terms.base(key), key in over); }
    var charged := Charge(left, next);
    over'' := if next == U32_MAX then over' + {key} else over';
    StayCase(b, c, i, lg', terms, max, over, over', over'', played, charged.0, charged.1, 1);
    return Stays(c, key, charged.0, charged.1), over'', 1;
  }

  /** Once every configuration is settled, a round in which any of them ran has cost something. */
  lemma SettledAll(b: Books, b': Books, lg': ConfigKey -> Ledger, terms: Terms, max: nat, over: set<ConfigKey>,
                   over': set<ConfigKey>, played: nat)
    requires Settling(b, b', |b.pending|, lg', terms, max, over, over', played)
    requires played > 0 || forall j | 0 <= j < |b.pending| :: Of(b.left, b.pending[j]) == 0
    ensures multiset(b'.passed) + multiset(b'.pending) == multiset(b.passed) + multiset(b.pending)
    ensures (exists key | key in b.pending :: Of(b.left, key) > 0)
            ==> Total(b'.left, b'.pending) < Total(b.left, b.pending)
  {
    assert b.pending[..|b.pending|] == b.pending;
  }

  /** Judge the round's attempts; whoever fails is charged and stays pending. */
  method Settle(b: Books, round: seq<RunRecord>, n: u32, enforceSpread: bool, ghost lg: ConfigKey -> Ledger,
                ghost lg': ConfigKey -> Ledger, ghost terms: Terms, ghost max: nat, ghost over: set<ConfigKey>)
    returns (b': Books, ghost over': set<ConfigKey>, ghost played: nat)
    requires Distinct(b.pending) && Standing(b.left, b.next, b.pending, lg, terms, max, over)
    requires Played(b, round, n, enforceSpread, lg, lg', terms)
    ensures Settling(b, b', |b.pending|, lg', terms, max, over, over', played)
    ensures multiset(b'.passed) + multiset(b'.pending) == multiset(b.passed) + multiset(b.pending)
    ensures (exists key | key in b.pending :: Of(b.left, key) > 0)
            ==> Total(b'.left, b'.pending) < Total(b.left, b.pending)
  {
    var groups := GroupByKey(round);
    b' := b.(pending := []);
    over', played := over, 0;
    for i := 0 to |b.pending|
      invariant Settling(b, b', i, lg', terms, max, over, over', played)
      invariant played > 0 || forall j | 0 <= j < i :: Of(b.left, b.pending[j]) == 0
    {
      RunsOfKey(round, b.pending[i]);
      ghost var cost;
      b', over', cost := SettleOne(b, b', i, groups, round, n, enforceSpread, lg, lg', terms, max, over, over', played);
      played := played + cost;
    }
    SettledAll(b, b', lg', terms, max, over, over', played);
  }
}
