/**
  The retry and resume orchestrator: rounds of repetitions with a budget per configuration, over an
  output directory that outlives the session.
  */
module Matrix {
  import opened Arith
  import opened RunRecords
  import opened Outcome
  import opened Classify
  import opened Resume

  // ---------------------------------------------------------------- the output directory

  /** One run's file name: names of distinct runs are distinct, so the triple stands for it. */
  datatype Name = Name(key: ConfigKey, attempt: u32, repetition: u32)

  function NameOf(r: RunRecord): Name {
    Name(r.key, r.attempt, r.repetition)
  }

  /** Published records, and the names that a temporary record or a scratch directory still holds. */
  datatype Dir = Dir(records: seq<RunRecord>, strays: set<Name>)

  function RecordNames(records: seq<RunRecord>): set<Name> {
    set r | r in records :: NameOf(r)
  }

  function Names(d: Dir): set<Name> {
    RecordNames(d.records) + d.strays
  }

  lemma NamesStep(records: seq<RunRecord>, r: RunRecord)
    ensures RecordNames(records + [r]) == RecordNames(records) + {NameOf(r)}
  {
    assert r in records + [r];
    assert forall x | x in records :: x in records + [r];
  }

  /** No repetition of the attempt holds a name. */
  ghost predicate Unused(names: set<Name>, key: ConfigKey, a: u32, n: nat) {
    forall rep: u32 | 1 <= rep <= n :: Name(key, a, rep) !in names
  }

  /** The largest attempt number of the configuration is taken. */
  ghost predicate NumbersGone(names: set<Name>, key: ConfigKey) {
    exists nm | nm in names :: nm.key == key && nm.attempt == U32_MAX
  }

  datatype Inspection = Vacant | Occupied | Unreadable

  /** `attempt_in_use`; inspecting a path may fail. */
  method AttemptInUse(dir: Dir, key: ConfigKey, a: u32, n: u32) returns (found: Inspection)
    ensures found.Vacant? ==> Unused(Names(dir), key, a, n)
    ensures found.Occupied? ==> !Unused(Names(dir), key, a, n)
  {
    for rep := 1 to n + 1
      invariant forall r: u32 | 1 <= r < rep :: Name(key, a, r) !in Names(dir)
    {
      if * {
        return Unreadable;
      }
      if Name(key, a, rep) in Names(dir) {
        return Occupied;
      }
    }
    return Vacant;
  }

  datatype Search = At(attempt: u32) | NoneLeft | Failed

  /** Every number from `start` up to `a` is held by some file. */
  ghost predicate Skips(names: set<Name>, key: ConfigKey, start: u32, a: u32, n: nat) {
    start <= a && forall x: u32 | start <= x < a :: !Unused(names, key, x, n)
  }

  /** The first attempt number from `start` on that no file holds. */
  method FirstUnused(dir: Dir, key: ConfigKey, start: u32, n: u32) returns (r: Search)
    ensures r.At? ==> Skips(Names(dir), key, start, r.attempt, n) && Unused(Names(dir), key, r.attempt, n)
    ensures r.NoneLeft? ==> NumbersGone(Names(dir), key)
  {
    var a := start;
    while true
      invariant start <= a <= U32_MAX && forall x: u32 | start <= x < a :: !Unused(Names(dir), key, x, n)
      decreases U32_MAX - a
    {
      var found := AttemptInUse(dir, key, a, n);
      if found.Vacant? {
        return At(a);
      }
      if found.Unreadable? {
        return Failed;
      }
      if a == U32_MAX {
        return NoneLeft;
      }
      a := a + 1;
    }
  }

  // ---------------------------------------------------------------- what a session does

  /** One attempt of one configuration in a round. */
  datatype Planned = Planned(key: ConfigKey, attempt: u32)

  /**
    A dispatched run with the directory its round was planned over, whether its record was written,
    and whether its name is held afterwards; or a stop check with the budget it was asked at.
    */
  datatype Event =
    | Dispatch(name: Name, over: Dir, stored: bool, kept: bool)
    | Ask(key: ConfigKey, budget: nat, stops: bool)

  /** Every run goes to a name not held before, under an attempt number no file holds, and to each name once. */
  ghost predicate DispatchesOk(t: seq<Event>, before: set<Name>, after: set<Name>, n: nat) {
    && before <= after
    && (forall i | 0 <= i < |t| && t[i].Dispatch? ::
          && t[i].name !in before && Unused(Names(t[i].over), t[i].name.key, t[i].name.attempt, n)
          && before <= Names(t[i].over)
          && (t[i].stored ==> t[i].kept) && (t[i].kept ==> t[i].name in after))
    && (forall i, j | 0 <= i < j < |t| && t[i].Dispatch? && t[j].Dispatch? :: t[i].name != t[j].name)
  }

  /** `a` lies above every stored attempt of the configuration, and is the first such number no file holds. */
  ghost predicate NextFree(dir: Dir, key: ConfigKey, a: u32, n: nat) {
    && a >= 1 && AboveStored(dir.records, key, a) && Unused(Names(dir), key, a, n)
    && forall x: u32 | 1 <= x < a && AboveStored(dir.records, key, x) :: !Unused(Names(dir), key, x, n)
  }

  ghost predicate AboveStored(records: seq<RunRecord>, key: ConfigKey, a: u32) {
    forall r | r in records && r.key == key :: r.attempt < a
  }

  /** Every run goes to the first number free for its configuration when its round was planned. */
  ghost predicate InOrder(t: seq<Event>, n: nat) {
    forall i | 0 <= i < |t| && t[i].Dispatch? :: NextFree(t[i].over, t[i].name.key, t[i].name.attempt, n)
  }

  /** The trace grew by runs of the plans, in a round planned over `dir`. */
  ghost predicate NewRuns(t: seq<Event>, t': seq<Event>, dir: Dir, active: seq<Planned>) {
    && t <= t'
    && forall i | |t| <= i < |t'| && t'[i].Dispatch? ::
         t'[i].over == dir && Planned(t'[i].name.key, t'[i].name.attempt) in active
  }

  lemma RunsInOrder(t: seq<Event>, t': seq<Event>, dir: Dir, active: seq<Planned>, n: nat)
    requires InOrder(t, n) && NewRuns(t, t', dir, active)
    requires forall p | p in active :: NextFree(dir, p.key, p.attempt, n)
    ensures InOrder(t', n)
  {
    forall i | 0 <= i < |t'| && t'[i].Dispatch? ensures NextFree(t'[i].over, t'[i].name.key, t'[i].name.attempt, n) {
      if i < |t| { assert t'[i] == t[i]; }
    }
  }

  /** The stop check is asked at budget zero, once per configuration, and nothing follows a stop. */
  ghost predicate AsksOk(t: seq<Event>) {
    && (forall i | 0 <= i < |t| && t[i].Ask? :: t[i].budget == 0 && (t[i].stops ==> i == |t| - 1))
    && (forall i, j | 0 <= i < j < |t| && t[i].Ask? && t[j].Ask? :: t[i].key != t[j].key)
  }

  /** What a session that goes on has done: every name is held, and every check let it go on. */
  ghost predicate GoingOn(t: seq<Event>, checked: set<ConfigKey>) {
    && (forall i | 0 <= i < |t| && t[i].Dispatch? :: t[i].kept)
    && (forall i | 0 <= i < |t| && t[i].Ask? :: !t[i].stops && t[i].key in checked)
  }

  /** A run under a name not held extends the trace. */
  lemma DispatchStep(t: seq<Event>, before: set<Name>, names: set<Name>, names': set<Name>, n: nat, e: Event,
                     checked: set<ConfigKey>)
    requires DispatchesOk(t, before, names, n) && AsksOk(t) && GoingOn(t, checked)
    requires names <= names' && e.Dispatch? && e.name !in names && before <= Names(e.over)
    requires Unused(Names(e.over), e.name.key, e.name.attempt, n)
    requires (e.stored ==> e.kept) && (e.kept ==> e.name in names')
    ensures DispatchesOk(t + [e], before, names', n) && AsksOk(t + [e])
    ensures e.kept ==> GoingOn(t + [e], checked)
  {
  }

  /** A first check of a spent budget extends the trace. */
  lemma AskStep(t: seq<Event>, before: set<Name>, names: set<Name>, n: nat, e: Event, checked: set<ConfigKey>)
    requires DispatchesOk(t, before, names, n) && AsksOk(t) && GoingOn(t, checked)
    requires e.Ask? && e.budget == 0 && e.key !in checked
    ensures DispatchesOk(t + [e], before, names, n) && AsksOk(t + [e])
    ensures !e.stops ==> GoingOn(t + [e], checked + {e.key})
  {
  }

  // ---------------------------------------------------------------- one run

  datatype Status = Continue | Halt

  predicate CreatedOwnScratch(r: RunRecord) {
    !exists i | 0 <= i < |r.harnessErrors| :: SCRATCH_REUSED_PREFIX <= r.harnessErrors[i]
  }

  /** What a run leaves behind besides its record. */
  datatype Remains = Remains(
    scratch: bool,   // it made a scratch directory
    removed: bool,   // the directory could be removed after a failed write
    tmpLeft: bool)   // its temporary record could not be removed

  /** A failed write drops the scratch directory the run made itself. */
  predicate Leaves(r: RunRecord, written: bool, x: Remains) {
    x.tmpLeft || (x.scratch && (written || !CreatedOwnScratch(r) || !x.removed))
  }

  /** The directory after a run: with its record if the write succeeded, and with whatever it left behind. */
  function AfterRun(dir: Dir, r: RunRecord, written: bool, x: Remains): Dir {
    Dir(if written then dir.records + [r] else dir.records,
        if Leaves(r, written, x) then dir.strays + {NameOf(r)} else dir.strays)
  }

  /** Exactly when a run leaves its name free, to be dispatched again by a later session. */
  lemma NameFreeAgain(dir: Dir, r: RunRecord, written: bool, x: Remains)
    requires NameOf(r) !in Names(dir)
    ensures var after := Names(AfterRun(dir, r, written, x));
            && (NameOf(r) !in after <==>
                  !written && !x.tmpLeft && (x.scratch ==> CreatedOwnScratch(r) && x.removed))
            && Names(dir) <= after <= Names(dir) + {NameOf(r)}
  {
    NamesStep(dir.records, r);
  }

  /**
    A failed write that leaves no file at all leaves the directory as it was: the search that chose the
    run's attempt number chooses it again, and its name is free for a second dispatch.
    */
  lemma LostRunIsRepeated(dir: Dir, r: RunRecord, start: u32, n: nat)
    requires Skips(Names(dir), r.key, start, r.attempt, n) && Unused(Names(dir), r.key, r.attempt, n)
    requires CreatedOwnScratch(r) && 1 <= r.repetition <= n
    ensures var after := AfterRun(dir, r, false, Remains(true, true, false));
            && after == dir && NameOf(r) !in Names(after)
            && forall a: u32 ::
                 Skips(Names(after), r.key, start, a, n) && Unused(Names(after), r.key, a, n) <==> a == r.attempt
  {
  }

  /**
    One dispatch. The run returns any record with its spec's identity; a signal may arrive while it
    runs, the write may fail, and a scratch directory or a temporary record may not go away.
    */
  method DispatchOne(dir: Dir, p: Planned, rep: u32)
    returns (dir': Dir, record: RunRecord, status: Status, stored: bool)
    requires Name(p.key, p.attempt, rep) !in Names(dir)
    ensures NameOf(record) == Name(p.key, p.attempt, rep)
    ensures dir'.records == if stored then dir.records + [record] else dir.records
    ensures Names(dir) <= Names(dir') <= Names(dir) + {NameOf(record)}
    ensures status == Continue <==> stored && !record.cancelled && !LeftSurvivor(record)
  {
    var any: RunRecord := *;
    var cancelled: bool, remains: Remains := *, *;
    stored := *;
    record := any.(key := p.key, attempt := p.attempt, repetition := rep);
    record := record.(cancelled := cancelled);
    NameFreeAgain(dir, record, stored, remains);
    dir' := AfterRun(dir, record, stored, remains);
    if !stored || LeftSurvivor(record) || cancelled {
      return dir', record, Halt, stored;
    }
    return dir', record, Continue, stored;
  }

  // ---------------------------------------------------------------- one round

  ghost predicate DistinctPlans(active: seq<Planned>) {
    forall i, j | 0 <= i < j < |active| :: active[i].key != active[j].key
  }

  /** The configuration ran repetitions `1..=m` of its planned attempt, in order. */
  ghost predicate Ran(round: seq<RunRecord>, p: Planned, m: nat) {
    var runs := RunsOf(round, p.key);
    |runs| == m && forall i | 0 <= i < m :: runs[i].repetition == i + 1 && runs[i].attempt == p.attempt
  }

  /** Every record belongs to a planned attempt. */
  ghost predicate PartOf(round: seq<RunRecord>, active: seq<Planned>) {
    forall r | r in round :: Planned(r.key, r.attempt) in active
  }

  /** Progress of a round: plans before `idx` have run `rep` repetitions, the others one less. */
  ghost predicate Progress(round: seq<RunRecord>, active: seq<Planned>, rep: nat, idx: nat) {
    forall j | 0 <= j < |active| :: Ran(round, active[j], if j < idx then rep else Max(rep, 1) - 1)
  }

  lemma RanStep(round: seq<RunRecord>, p: Planned, m: nat, r: RunRecord, q: Planned)
    requires Ran(round, p, m)
    requires r.key == q.key && (p.key == q.key ==> r.attempt == p.attempt && r.repetition == m + 1)
    ensures Ran(round + [r], p, if p.key == q.key then m + 1 else m)
  {
    WhereStep(round, r, OfKey(p.key));
  }

  lemma ProgressStep(round: seq<RunRecord>, active: seq<Planned>, rep: nat, idx: nat, r: RunRecord)
    requires rep >= 1 && idx < |active| && DistinctPlans(active) && Progress(round, active, rep, idx)
    requires r.key == active[idx].key && r.attempt == active[idx].attempt && r.repetition == rep
    ensures Progress(round + [r], active, rep, idx + 1)
  {
    forall j | 0 <= j < |active| ensures Ran(round + [r], active[j], if j < idx + 1 then rep else rep - 1) {
      assert j != idx ==> active[j].key != active[idx].key;
      RanStep(round, active[j], if j < idx then rep else rep - 1, r, active[idx]);
    }
  }

  /** The next run's name is not among those of the round so far. */
  lemma NextNameIsNew(round: seq<RunRecord>, p: Planned, m: nat)
    requires Ran(round, p, m) && m < U32_MAX
    ensures Name(p.key, p.attempt, m + 1) !in RecordNames(round)
  {
    forall r | r in round ensures NameOf(r) != Name(p.key, p.attempt, m + 1) {
      WhereMeaning(round, OfKey(p.key), r);
    }
  }

  /** Plans whose attempt numbers no file holds. */
  ghost predicate PlansOk(active: seq<Planned>, names: set<Name>, n: nat) {
    DistinctPlans(active) && forall p | p in active :: Unused(names, p.key, p.attempt, n)
  }

  /** What a round has left behind, however it ended. */
  ghost predicate RoundSoFar(dir: Dir, dir': Dir, round: seq<RunRecord>, active: seq<Planned>, n: nat,
                             before: set<Name>, t: seq<Event>) {
    && dir'.records == dir.records + round && PartOf(round, active) && Names(dir) <= Names(dir')
    && DispatchesOk(t, before, Names(dir'), n) && AsksOk(t)
  }

  /** A round that goes on. */
  ghost predicate RoundGoesOn(dir: Dir, dir': Dir, round: seq<RunRecord>, t: seq<Event>, checked: set<ConfigKey>) {
    && Names(dir) <= Names(dir') <= Names(dir) + RecordNames(round)
    && Undisturbed(round) && GoingOn(t, checked)
  }

  /** The event of one dispatch in a round planned over `dir`. */
  ghost function Dispatched(r: RunRecord, dir: Dir, dir': Dir, stored: bool): Event {
    Dispatch(NameOf(r), dir, stored, NameOf(r) in Names(dir'))
  }

  lemma StoredIsHeld(dir: Dir, r: RunRecord)
    requires r in dir.records
    ensures NameOf(r) in Names(dir)
  {
  }

  lemma RoundStep(dir: Dir, dir': Dir, d: Dir, round: seq<RunRecord>, active: seq<Planned>, n: nat, before: set<Name>,
                  t: seq<Event>, checked: set<ConfigKey>, r: RunRecord, stored: bool)
    requires RoundSoFar(dir, dir', round, active, n, before, t) && RoundGoesOn(dir, dir', round, t, checked)
    requires PlansOk(active, Names(dir), n) && before <= Names(dir)
    requires Planned(r.key, r.attempt) in active && NameOf(r) !in Names(dir')
    requires d.records == (if stored then dir'.records + [r] else dir'.records)
    requires Names(dir') <= Names(d) <= Names(dir') + {NameOf(r)}
    ensures RoundSoFar(dir, d, if stored then round + [r] else round, active, n, before,
                       t + [Dispatched(r, dir, d, stored)])
    ensures stored && !r.cancelled && !LeftSurvivor(r) ==>
              RoundGoesOn(dir, d, round + [r], t + [Dispatched(r, dir, d, stored)], checked)
  {
    if stored { StoredIsHeld(d, r); }
    DispatchStep(t, before, Names(dir'), Names(d), n, Dispatched(r, dir, d, stored), checked);
    NamesStep(round, r);
  }

  /** What holds while repetition `rep` is dispatched, after the first `idx` plans. */
  ghost predicate Underway(dir: Dir, dir': Dir, round: seq<RunRecord>, active: seq<Planned>, n: nat, before: set<Name>,
                           t: seq<Event>, checked: set<ConfigKey>, rep: nat, idx: nat) {
    && RoundSoFar(dir, dir', round, active, n, before, t) && RoundGoesOn(dir, dir', round, t, checked)
    && Progress(round, active, rep, idx)
  }

  lemma UnderwayStep(dir: Dir, dir': Dir, d: Dir, round: seq<RunRecord>, active: seq<Planned>, n: nat,
                     before: set<Name>, t: seq<Event>, checked: set<ConfigKey>, rep: u32, idx: nat, r: RunRecord,
                     stored: bool)
    requires Underway(dir, dir', round, active, n, before, t, checked, rep, idx) && rep >= 1 && idx < |active|
    requires PlansOk(active, Names(dir), n) && before <= Names(dir)
    requires NameOf(r) == Name(active[idx].key, active[idx].attempt, rep) && NameOf(r) !in Names(dir')
    requires d.records == (if stored then dir'.records + [r] else dir'.records)
    requires Names(dir') <= Names(d) <= Names(dir') + {NameOf(r)}
    ensures RoundSoFar(dir, d, if stored then round + [r] else round, active, n, before,
                       t + [Dispatched(r, dir, d, stored)])
    ensures stored && !r.cancelled && !LeftSurvivor(r) ==>
              Underway(dir, d, round + [r], active, n, before, t + [Dispatched(r, dir, d, stored)], checked, rep,
                       idx + 1)
  {
    assert active[idx] in active;
    RoundStep(dir, dir', d, round, active, n, before, t, checked, r, stored);
    ProgressStep(round, active, rep, idx, r);
  }

  /** One planned attempt's next run, after the cancellation check. */
  method DispatchPlan(dir: Dir, d: Dir, done: seq<RunRecord>, active: seq<Planned>, n: u32, rep: u32, idx: nat,
                      ghost before: set<Name>, ghost t: seq<Event>, ghost checked: set<ConfigKey>)
    returns (dir': Dir, round: seq<RunRecord>, status: Status, ghost t': seq<Event>)
    requires PlansOk(active, Names(dir), n) && before <= Names(dir) && 1 <= rep <= n && idx < |active|
    requires Underway(dir, d, done, active, n, before, t, checked, rep, idx)
    ensures RoundSoFar(dir, dir', round, active, n, before, t')
    ensures dir'.records == dir.records + round && PartOf(round, active)
    ensures status == Continue ==> Underway(dir, dir', round, active, n, before, t', checked, rep, idx + 1)
    ensures NewRuns(t, t', dir, active)
  {
    if * {
      return d, done, Halt, t;
    }
    FreshName(dir, d, done, active[idx], rep, n);
    var record, stored;
    dir', record, status, stored := DispatchOne(d, active[idx], rep);
    UnderwayStep(dir, d, dir', done, active, n, before, t, checked, rep, idx, record, stored);
    round := if stored then done + [record] else done;
    t' := t + [Dispatched(record, dir, dir', stored)];
    assert active[idx] in active;
  }

  /** One repetition of every planned attempt, until something halts the session. */
  method DispatchRepetition(dir: Dir, d: Dir, done: seq<RunRecord>, active: seq<Planned>, n: u32, rep: u32,
                            ghost before: set<Name>, ghost t: seq<Event>, ghost checked: set<ConfigKey>)
    returns (dir': Dir, round: seq<RunRecord>, status: Status, ghost t': seq<Event>)
    requires PlansOk(active, Names(dir), n) && before <= Names(dir) && 1 <= rep <= n
    requires RoundSoFar(dir, d, done, active, n, before, t) && RoundGoesOn(dir, d, done, t, checked)
    requires Progress(done, active, rep, 0)
    ensures RoundSoFar(dir, dir', round, active, n, before, t')
    ensures dir'.records == dir.records + round && PartOf(round, active)
    ensures status == Continue ==> RoundGoesOn(dir, dir', round, t', checked)
    ensures status == Continue ==> Progress(round, active, rep, |active|)
    ensures NewRuns(t, t', dir, active)
  {
    dir', round, t' := d, done, t;
    for idx := 0 to |active|
      invariant NewRuns(t, t', dir, active)
      invariant Underway(dir, dir', round, active, n, before, t', checked, rep, idx)
    {
      dir', round, status, t' := DispatchPlan(dir, dir', round, active, n, rep, idx, before, t', checked);
      if status == Halt {
        return;
      }
    }
    status := Continue;
  }

  lemma FreshName(dir: Dir, dir': Dir, round: seq<RunRecord>, p: Planned, rep: u32, n: u32)
    requires Names(dir') <= Names(dir) + RecordNames(round) && Unused(Names(dir), p.key, p.attempt, n)
    requires 1 <= rep <= n && Ran(round, p, rep - 1)
    ensures Name(p.key, p.attempt, rep) !in Names(dir')
  {
    NextNameIsNew(round, p, rep - 1);
  }

  /** Every planned attempt, repetition by repetition, until something halts the session. */
  method DispatchRound(dir: Dir, active: seq<Planned>, n: u32,
                       ghost before: set<Name>, ghost t: seq<Event>, ghost checked: set<ConfigKey>)
    returns (dir': Dir, round: seq<RunRecord>, status: Status, ghost t': seq<Event>)
    requires PlansOk(active, Names(dir), n)
    requires DispatchesOk(t, before, Names(dir), n) && AsksOk(t) && GoingOn(t, checked)
    ensures RoundSoFar(dir, dir', round, active, n, before, t')
    ensures dir'.records == dir.records + round && PartOf(round, active)
    ensures status == Continue ==> GoingOn(t', checked)
    ensures status == Continue ==> Undisturbed(round) && forall p | p in active :: Ran(round, p, n)
    ensures NewRuns(t, t', dir, active)
  {
    dir', round, t' := dir, [], t;
    assert dir'.records == dir.records + round;
    for rep := 1 to n + 1
      invariant RoundSoFar(dir, dir', round, active, n, before, t') && RoundGoesOn(dir, dir', round, t', checked)
      invariant Progress(round, active, rep, 0) && NewRuns(t, t', dir, active)
    {
      dir', round, status, t' := DispatchRepetition(dir, dir', round, active, n, rep, before, t', checked);
      if status == Halt {
        return;
      }
      assert Progress(round, active, rep + 1, 0);
    }
    status := Continue;
  }
}
