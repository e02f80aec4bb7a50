/**
  The QoS 1 session of one connection: a writer and a reader that share a packet-id allocator, a
  permit semaphore and an in-flight counter. Every shared access is one atomic step, and a run is
  any interleaving of the two tasks' steps.

  Environment: the peer acknowledges no packet id before its PUBLISH is written; an aborted reader
  stops only where it awaits a frame. Sections 2.3.1 and 4.3.2 of MQTT 3.1.1 fix what an
  acknowledgement releases.
  */
module Qos1 {
  import opened Arith
  import opened Ids
  import Pacer

  /** Throughput sessions hold `window` permits; latency sessions have no semaphore. */
  datatype Mode = Throughput(window: nat) | Latency

  datatype Writer =
    | Ready            // top of the publishing loop
    | Filling          // topping up a batch of permits
    | Encoding         // allocating one id per publish
    | Gate             // a non-empty batch is encoded
    | OfferedCounted   // the batch is counted offered
    | InFlightCounted  // and in flight; its permits are being forgotten
    | Writing          // the batch is on its way to the peer
    | Draining         // waiting for the in-flight counter to reach zero
    | Stopping         // aborting the reader
    | Leftover         // the reader has stopped; what is left is stalled
    | Closing          // drained; the reader still runs until it is joined
    | Closed

  /** Where the reader is inside its acknowledgement block. */
  datatype Reader = Idle | Released | Acked | Permitted | Stopped

  /** Which ids and which publishes the session is about. */
  datatype Books = Books(
    ids: set<nat>,           // ids the allocator has in use
    batch: seq<nat>,         // ids allocated and not yet written
    live: map<nat, nat>,     // written and unacknowledged: id to publish number
    ackedPubs: set<nat>)     // publishes whose acknowledgement released their id

  datatype State = State(
    mode: Mode,
    writer: Writer,
    reader: Reader,
    avail: nat,              // permits in the semaphore
    held: nat,               // permits the writer holds
    books: Books,
    inFlight: nat,
    offered: nat,
    acked: nat,
    stalled: nat,
    failed: bool,            // a publish write failed
    protocolErrors: nat)

  datatype Action =
    | Acquire | TryAcquire | StopFilling
    | StartBatch | Allocate(id: nat) | EndBatch
    | DropBatch | CountOffered | CountInFlight | Forget | BeginWrite
    | WriteDone | WriteFails | EndLoop
    | SeeDrained | DrainTimeout | StopReader | CountLeftover | JoinReader
    | Puback(id: nat) | CountAck | AddPermit | SubInFlight | RejectPacket | ReaderEnds

  function Init(mode: Mode): State {
    State(mode, Ready, Idle, if mode.Throughput? then mode.window else 0, 0, Books({}, [], map[], {}),
          0, 0, 0, 0, false, 0)
  }

  /** `validate`: a QoS 1 window is between 1 and 65535. */
  predicate ValidMode(mode: Mode) {
    mode.Throughput? ==> 1 <= mode.window <= U16_MAX
  }

  predicate AllIdsUsed(ids: set<nat>) {
    forall id: nat | id <= U16_MAX && IsId(id) :: id in ids
  }

  /** How many publishes the current batch may take. */
  function BatchLimit(s: State): nat {
    if s.mode.Throughput? then s.held else Pacer.BATCH
  }

  predicate ReaderAtRest(s: State) {
    s.reader == Idle || s.reader == Stopped
  }

  predicate Enabled(s: State, a: Action) {
    match a
    case Acquire => s.mode.Throughput? && s.writer == Ready && s.avail > 0
    case TryAcquire => s.writer == Filling && s.avail > 0 && s.held < Pacer.BATCH
    case StopFilling => s.writer == Filling && (s.avail == 0 || s.held == Pacer.BATCH)
    case StartBatch => s.mode.Latency? && s.writer == Ready
    case Allocate(id) => s.writer == Encoding && |s.books.batch| < BatchLimit(s) && IsId(id) && id !in s.books.ids
    case EndBatch => s.writer == Encoding
                     && (s.mode.Throughput? ==> |s.books.batch| == s.held || AllIdsUsed(s.books.ids))
    case DropBatch => s.mode.Latency? && s.writer == Gate
    case CountOffered => s.writer == Gate
    case CountInFlight => s.writer == OfferedCounted
    case Forget => s.writer == InFlightCounted && s.held > 0
    case BeginWrite => s.writer == InFlightCounted && s.held == 0
    case WriteDone => s.writer == Writing
    case WriteFails => s.writer == Writing
    case EndLoop => s.writer == Ready
    case SeeDrained => s.writer == Draining && s.inFlight == 0
    case DrainTimeout => s.writer == Draining
    case StopReader => s.writer == Stopping && ReaderAtRest(s)
    case CountLeftover => s.writer == Leftover
    case JoinReader => s.writer == Closing && ReaderAtRest(s)
    case Puback(id) => s.reader == Idle && id <= U16_MAX && id !in s.books.batch
    case CountAck => s.reader == Released
    case AddPermit => s.reader == Acked
    case SubInFlight => s.reader == Permitted
    case RejectPacket => s.reader == Idle
    case ReaderEnds => s.reader == Idle
  }

  function Index(batch: seq<nat>, id: nat): (i: nat)
    requires id in batch
    ensures i < |batch| && batch[i] == id
  {
    if batch[0] == id then 0 else Index(batch[1..], id) + 1
  }

  /** The publish numbers of a batch follow those already begun. */
  function Numbered(batch: seq<nat>, first: nat): map<nat, nat> {
    map id | id in batch :: first + Index(batch, id)
  }

  function Elements(batch: seq<nat>): set<nat> {
    set id | id in batch
  }

  function Allocated(b: Books, id: nat): Books {
    b.(ids := b.ids + {id}, batch := b.batch + [id])
  }

  function Dropped(b: Books): Books {
    b.(ids := b.ids - Elements(b.batch), batch := [])
  }

  function Written(b: Books): Books {
    Submitted(b, Numbered(b.batch, Begun(b)))
  }

  function Submitted(b: Books, publishes: map<nat, nat>): Books {
    b.(live := b.live + publishes, batch := [])
  }

  /** What `release` of an id in use leaves. */
  function Acknowledged(b: Books, id: nat): Books {
    if id in b.live
    then b.(ids := b.ids - {id}, live := b.live - {id}, ackedPubs := b.ackedPubs + {b.live[id]})
    else b.(ids := b.ids - {id})
  }

  /** A PUBACK for an id that is not in use is a protocol error. */
  function OnPuback(s: State, id: nat): State {
    if id in s.books.ids then s.(books := Acknowledged(s.books, id), reader := Released)
    else s.(protocolErrors := s.protocolErrors + 1)
  }

  function Apply(s: State, a: Action): State
    requires Enabled(s, a)
  {
    match a
    case Acquire => s.(avail := s.avail - 1, held := 1, writer := Filling)
    case TryAcquire => s.(avail := s.avail - 1, held := s.held + 1)
    case StopFilling => s.(writer := Encoding)
    case StartBatch => s.(writer := Encoding)
    case Allocate(id) => s.(books := Allocated(s.books, id))
    case EndBatch =>
      if s.books.batch == [] then s.(writer := Ready, avail := s.avail + s.held, held := 0)
      else s.(writer := Gate)
    case DropBatch => s.(writer := Draining, books := Dropped(s.books))
    case CountOffered => s.(writer := OfferedCounted, offered := s.offered + |s.books.batch|)
    case CountInFlight => s.(writer := InFlightCounted, inFlight := s.inFlight + |s.books.batch|)
    case Forget => s.(held := s.held - 1)
    case BeginWrite => s.(writer := Writing, books := Written(s.books))
    case WriteDone => s.(writer := Ready)
    case WriteFails => s.(writer := Draining, failed := true)
    case EndLoop => s.(writer := Draining)
    case SeeDrained => s.(writer := if s.mode.Throughput? && s.failed then Stopping else Closing)
    case DrainTimeout => s.(writer := Stopping)
    case StopReader => s.(writer := Leftover, reader := Stopped)
    case CountLeftover => s.(writer := Closed, stalled := s.stalled + s.inFlight)
    case JoinReader => s.(writer := Closed, reader := Stopped)
    case Puback(id) => OnPuback(s, id)
    case CountAck => s.(acked := s.acked + 1, reader := Acked)
    case AddPermit => s.(avail := if s.mode.Throughput? then s.avail + 1 else s.avail, reader := Permitted)
    // `fetch_sub` wraps at zero.
    case SubInFlight => s.(inFlight := if s.inFlight == 0 then U64_MAX else s.inFlight - 1, reader := Idle)
    case RejectPacket => s.(protocolErrors := s.protocolErrors + 1)
    case ReaderEnds => s.(reader := Stopped)
  }

  /** `run` is an interleaving of the session's steps from its start. */
  ghost predicate IsRun(mode: Mode, run: seq<State>, actions: seq<Action>) {
    && |run| == |actions| + 1
    && run[0] == Init(mode)
    && forall i | 0 <= i < |actions| :: Enabled(run[i], actions[i]) && run[i + 1] == Apply(run[i], actions[i])
  }

  // ---------------------------------------------------------------- the invariant

  ghost predicate Distinct(batch: seq<nat>) {
    forall i, j | 0 <= i < j < |batch| :: batch[i] != batch[j]
  }

  /** Ids in use are exactly those of the batch and those unacknowledged. */
  ghost predicate IdsAccounted(b: Books) {
    && b.ids == b.live.Keys + Elements(b.batch) && b.live.Keys !! Elements(b.batch)
    && Distinct(b.batch)
    && forall id | id in b.ids :: IsId(id)
  }

  function Begun(b: Books): nat {
    |b.ackedPubs| + |b.live|
  }

  predicate IsPublish(p: nat, begun: nat) {
    p < begun
  }

  ghost predicate Injective(m: map<nat, nat>) {
    forall x, y | x in m && y in m && x != y :: m[x] != m[y]
  }

  /** Each publish begun is acknowledged or unacknowledged, and never both. */
  ghost predicate PublishesAccounted(live: map<nat, nat>, ackedPubs: set<nat>) {
    && Injective(live)
    && (forall id | id in live :: live[id] !in ackedPubs && IsPublish(live[id], |ackedPubs| + |live|))
    && (forall p | p in ackedPubs :: IsPublish(p, |ackedPubs| + |live|))
  }

  /** Publishes of the batch that count as offered, respectively as in flight, before their write begins. */
  function EarlyOffered(s: State): nat {
    if s.writer == OfferedCounted || s.writer == InFlightCounted then |s.books.batch| else 0
  }

  function EarlyInFlight(s: State): nat {
    if s.writer == InFlightCounted then |s.books.batch| else 0
  }

  /** Permits taken for publishes that the semaphore must still get back. */
  function Owed(s: State): nat {
    |s.books.live| + (if s.reader == Released || s.reader == Acked then 1 else 0)
    + (if s.writer == InFlightCounted then |s.books.batch| else s.held)
  }

  ghost predicate CountsAccounted(s: State) {
    && s.offered == Begun(s.books) + EarlyOffered(s)
    && |s.books.ackedPubs| == s.acked + (if s.reader == Released then 1 else 0)
    && s.inFlight == |s.books.live| + EarlyInFlight(s) + (if ReaderAtRest(s) then 0 else 1)
    && (s.mode.Throughput? ==> s.avail + Owed(s) == s.mode.window <= U16_MAX)
    && (s.mode.Latency? ==> s.avail == 0 && s.held == 0)
    && s.stalled == if s.writer == Closed then s.inFlight else 0
  }

  /** Stages between batches. */
  predicate BetweenBatches(w: Writer) {
    w.Ready? || w.Writing? || w.Draining? || w.Stopping? || w.Leftover? || w.Closing? || w.Closed?
  }

  ghost predicate StageAccounted(s: State) {
    var n := |s.books.batch|;
    && (BetweenBatches(s.writer) ==> n == 0 && s.held == 0)
    && (s.writer == Filling ==> n == 0 && s.mode.Throughput?)
    && (s.writer == Encoding ==> n <= BatchLimit(s))
    && ((s.writer == Gate || s.writer == OfferedCounted) && s.mode.Throughput? ==> n == s.held)
    && (s.writer == InFlightCounted ==> s.held <= n)
    && (s.writer == Leftover ==> s.reader == Stopped)
    && (s.writer == Closing ==> s.inFlight == 0)
    && (s.writer == Closed ==> s.reader == Stopped)
  }

  ghost predicate Counted(s: State) {
    CountsAccounted(s) && StageAccounted(s)
  }

  ghost predicate Inv(s: State) {
    IdsAccounted(s.books) && PublishesAccounted(s.books.live, s.books.ackedPubs) && Counted(s)
  }

  // ---------------------------------------------------------------- what the books keep

  lemma {:induction false} DistinctCount(batch: seq<nat>)
    requires Distinct(batch)
    ensures |Elements(batch)| == |batch|
  {
    if batch == [] {
      assert Elements(batch) == {};
    } else {
      var last := batch[|batch| - 1];
      var before := batch[..|batch| - 1];
      DistinctCount(before);
      assert batch == before + [last];
      assert Elements(batch) == Elements(before) + {last};
    }
  }

  lemma AllUsedCount(b: Books)
    requires IdsAccounted(b) && AllIdsUsed(b.ids)
    ensures |b.live| + |b.batch| == U16_MAX
  {
    IntervalSize(1, U16_MAX + 1, b.ids);
    DistinctCount(b.batch);
    assert |b.live.Keys + Elements(b.batch)| == |b.live.Keys| + |Elements(b.batch)|;
  }

  /** Publish numbers for the ids of a batch: consecutive from `first`, no two alike. */
  ghost predicate FreshNumbers(m: map<nat, nat>, batch: seq<nat>, first: nat) {
    && m.Keys == Elements(batch) && |m| == |batch| && Injective(m)
    && forall id | id in m :: first <= m[id] < first + |batch|
  }

  lemma NumberedIsFresh(batch: seq<nat>, first: nat)
    requires Distinct(batch)
    ensures FreshNumbers(Numbered(batch, first), batch, first)
  {
    var m := Numbered(batch, first);
    DistinctCount(batch);
    assert m.Keys == Elements(batch);
    forall x, y | x in m && y in m && x != y ensures m[x] != m[y] {
      assert batch[Index(batch, x)] == x && batch[Index(batch, y)] == y;
    }
  }

  lemma JoinInjective(m: map<nat, nat>, n: map<nat, nat>, bound: nat)
    requires Injective(m) && Injective(n) && m.Keys !! n.Keys
    requires (forall x | x in m :: m[x] < bound) && (forall x | x in n :: bound <= n[x])
    ensures Injective(m + n) && |m + n| == |m| + |n|
  {
    assert (m + n).Keys == m.Keys + n.Keys;
    assert |m.Keys + n.Keys| == |m.Keys| + |n.Keys|;
  }

  lemma SubmittedIds(b: Books, more: map<nat, nat>)
    requires IdsAccounted(b) && more.Keys == Elements(b.batch)
    ensures IdsAccounted(Submitted(b, more))
  {
    assert Elements([]) == {};
  }

  lemma MorePublishes(live: map<nat, nat>, ackedPubs: set<nat>, more: map<nat, nat>)
    requires PublishesAccounted(live, ackedPubs) && Injective(more) && live.Keys !! more.Keys
    requires forall id | id in more :: |ackedPubs| + |live| <= more[id] < |ackedPubs| + |live| + |more|
    ensures |live + more| == |live| + |more|
    ensures PublishesAccounted(live + more, ackedPubs)
  {
    var begun := |ackedPubs| + |live|;
    forall id | id in live ensures live[id] < begun { assert IsPublish(live[id], begun); }
    JoinInjective(live, more, begun);
    forall p | p in ackedPubs ensures p < begun { assert IsPublish(p, begun); }
  }

  lemma WrittenKeeps(b: Books)
    requires IdsAccounted(b) && PublishesAccounted(b.live, b.ackedPubs)
    ensures IdsAccounted(Written(b)) && PublishesAccounted(Written(b).live, Written(b).ackedPubs)
    ensures |Written(b).live| == |b.live| + |b.batch|
  {
    var more := FreshBatch(b);
    SubmittedKeeps(b, more);
  }

  /** The numbers a write gives its batch. */
  lemma FreshBatch(b: Books) returns (more: map<nat, nat>)
    requires Distinct(b.batch)
    ensures Written(b) == Submitted(b, more) && FreshNumbers(more, b.batch, Begun(b))
  {
    more := Numbered(b.batch, Begun(b));
    NumberedIsFresh(b.batch, Begun(b));
  }

  lemma SubmittedKeeps(b: Books, more: map<nat, nat>)
    requires IdsAccounted(b) && PublishesAccounted(b.live, b.ackedPubs) && FreshNumbers(more, b.batch, Begun(b))
    ensures IdsAccounted(Submitted(b, more)) && PublishesAccounted(Submitted(b, more).live, b.ackedPubs)
    ensures |Submitted(b, more).live| == |b.live| + |b.batch|
  {
    SubmittedIds(b, more);
    MorePublishes(b.live, b.ackedPubs, more);
  }

  lemma AcknowledgedIds(b: Books, id: nat)
    requires IdsAccounted(b) && id in b.live
    ensures IdsAccounted(Acknowledged(b, id))
  {
    assert Acknowledged(b, id).live.Keys == b.live.Keys - {id};
  }

  lemma AcknowledgedPublishes(b: Books, id: nat)
    requires PublishesAccounted(b.live, b.ackedPubs) && id in b.live
    ensures PublishesAccounted(Acknowledged(b, id).live, Acknowledged(b, id).ackedPubs)
    ensures var after := Acknowledged(b, id);
            |after.live| == |b.live| - 1 && |after.ackedPubs| == |b.ackedPubs| + 1
  {
    var after := Acknowledged(b, id);
    assert after.live.Keys == b.live.Keys - {id};
    assert |after.live.Keys| == |b.live.Keys| - 1;
    assert IsPublish(b.live[id], Begun(b));
  }

  lemma AcknowledgedKeeps(b: Books, id: nat)
    requires IdsAccounted(b) && PublishesAccounted(b.live, b.ackedPubs) && id in b.ids && id !in b.batch
    ensures IdsAccounted(Acknowledged(b, id))
    ensures PublishesAccounted(Acknowledged(b, id).live, Acknowledged(b, id).ackedPubs)
    ensures var after := Acknowledged(b, id);
            after.batch == b.batch && |after.live| == |b.live| - 1 && |after.ackedPubs| == |b.ackedPubs| + 1
  {
    assert id in b.live;
    AcknowledgedIds(b, id);
    AcknowledgedPublishes(b, id);
  }

  lemma AllocatedKeeps(b: Books, id: nat)
    requires IdsAccounted(b) && IsId(id) && id !in b.ids
    ensures IdsAccounted(Allocated(b, id))
  {
    assert Elements(b.batch + [id]) == Elements(b.batch) + {id};
  }

  lemma DroppedKeeps(b: Books)
    requires IdsAccounted(b)
    ensures IdsAccounted(Dropped(b))
  {
    assert Elements([]) == {};
  }

  // ---------------------------------------------------------------- what every step keeps

  predicate MovesBooks(a: Action) {
    a.Allocate? || a.DropBatch? || a.BeginWrite? || a.Puback?
  }

  lemma PermitStepsCount(s: State, a: Action)
    requires Counted(s) && Enabled(s, a) && (a.Acquire? || a.TryAcquire? || a.Forget? || a.EndBatch?)
    requires a.EndBatch? && s.mode.Throughput? ==> |s.books.batch| == s.held
    ensures Counted(Apply(s, a))
  {
  }

  lemma StageStepsCount(s: State, a: Action)
    requires Counted(s) && Enabled(s, a)
    requires a.WriteDone? || a.WriteFails? || a.EndLoop? || a.SeeDrained? || a.DrainTimeout? || a.StopReader?
             || a.CountLeftover? || a.JoinReader?
    ensures Counted(Apply(s, a))
  {
  }

  lemma SubmitStepsCount(s: State, a: Action)
    requires Counted(s) && Enabled(s, a) && (a.StopFilling? || a.StartBatch? || a.CountOffered? || a.CountInFlight?)
    ensures Counted(Apply(s, a))
  {
  }

  lemma ReaderStepsCount(s: State, a: Action)
    requires Counted(s) && Enabled(s, a)
    requires a.CountAck? || a.AddPermit? || a.SubInFlight? || a.RejectPacket? || a.ReaderEnds?
    ensures Counted(Apply(s, a))
  {
    if a.CountAck? || a.AddPermit? { AckStepsCount(s, a); }
  }

  lemma AckStepsCount(s: State, a: Action)
    requires Counted(s) && Enabled(s, a) && (a.CountAck? || a.AddPermit?)
    ensures Counted(Apply(s, a))
  {
  }

  lemma AllocateCounts(s: State, id: nat)
    requires Counted(s) && Enabled(s, Allocate(id))
    ensures Counted(Apply(s, Allocate(id)))
  {
  }

  lemma DropBatchCounts(s: State)
    requires Counted(s) && Enabled(s, DropBatch)
    ensures Counted(Apply(s, DropBatch))
  {
  }

  lemma BeginWriteCounts(s: State)
    requires Counted(s) && Enabled(s, BeginWrite) && |Written(s.books).live| == |s.books.live| + |s.books.batch|
    ensures Counted(Apply(s, BeginWrite))
  {
  }

  lemma PubackCounts(s: State, id: nat, after: Books)
    requires Counted(s) && s.reader == Idle && after.batch == s.books.batch
    requires |after.live| == |s.books.live| - 1 && |after.ackedPubs| == |s.books.ackedPubs| + 1
    ensures Counted(s.(books := after, reader := Released))
  {
  }

  /** While a permit is left over, so is an id. */
  lemma FreeIdForEveryPermit(s: State)
    requires Inv(s) && s.mode.Throughput? && s.writer == Encoding && |s.books.batch| < s.held
    ensures !AllIdsUsed(s.books.ids)
  {
    if AllIdsUsed(s.books.ids) { AllUsedCount(s.books); }
  }

  lemma BooksStepKeeps(s: State, a: Action)
    requires Inv(s) && Enabled(s, a) && MovesBooks(a)
    ensures Inv(Apply(s, a))
  {
    match a
    case Allocate(id) => AllocatedKeeps(s.books, id); AllocateCounts(s, id);
    case DropBatch => DroppedKeeps(s.books); DropBatchCounts(s);
    case BeginWrite => WrittenKeeps(s.books); BeginWriteCounts(s);
    case Puback(id) => PubackKeeps(s, id);
  }

  lemma PubackKeeps(s: State, id: nat)
    requires Inv(s) && Enabled(s, Puback(id))
    ensures Inv(OnPuback(s, id))
  {
    if id in s.books.ids {
      AcknowledgedKeeps(s.books, id);
      PubackCounts(s, id, Acknowledged(s.books, id));
    }
  }

  lemma CountingStepKeeps(s: State, a: Action)
    requires Counted(s) && Enabled(s, a) && !MovesBooks(a)
    requires a.EndBatch? && s.mode.Throughput? ==> |s.books.batch| == s.held
    ensures Counted(Apply(s, a)) && Apply(s, a).books == s.books
  {
    match a
    case Acquire | TryAcquire | Forget | EndBatch => PermitStepsCount(s, a);
    case StopFilling | StartBatch | CountOffered | CountInFlight => SubmitStepsCount(s, a);
    case CountAck | AddPermit | SubInFlight | RejectPacket | ReaderEnds => ReaderStepsCount(s, a);
    case _ => StageStepsCount(s, a);
  }

  /** Every step of either task keeps the invariant. */
  lemma StepKeeps(s: State, a: Action)
    requires Inv(s) && Enabled(s, a)
    ensures Inv(Apply(s, a))
  {
    if MovesBooks(a) {
      BooksStepKeeps(s, a);
    } else {
      if a.EndBatch? && s.mode.Throughput? && |s.books.batch| < s.held { FreeIdForEveryPermit(s); }
      CountingStepKeeps(s, a);
    }
  }

  lemma InitKeeps(mode: Mode)
    requires ValidMode(mode)
    ensures Inv(Init(mode)) && Init(mode).mode == mode
  {
    assert Elements([]) == {};
  }

  lemma {:induction false} RunKeeps(mode: Mode, run: seq<State>, actions: seq<Action>, i: nat)
    requires ValidMode(mode) && IsRun(mode, run, actions) && i < |run|
    ensures Inv(run[i]) && run[i].mode == mode
  {
    if i == 0 {
      InitKeeps(mode);
    } else {
      RunKeeps(mode, run, actions, i - 1);
      StepKeeps(run[i - 1], actions[i - 1]);
      ModeIsFixed(run[i - 1], actions[i - 1]);
    }
  }

  lemma ModeIsFixed(s: State, a: Action)
    requires Enabled(s, a)
    ensures Apply(s, a).mode == s.mode
  {
  }

  // ---------------------------------------------------------------- main results

  /**
    Throughput: at every point of every run the permits in the semaphore, those the writer holds
    and the unacknowledged publishes never exceed the window, and a permit never waits for an id.
    */
  lemma WindowIsNeverExceeded(window: nat, run: seq<State>, actions: seq<Action>, i: nat)
    requires 1 <= window <= U16_MAX && IsRun(Throughput(window), run, actions) && i < |run|
    ensures run[i].avail + run[i].held + |run[i].books.live| <= window
    ensures run[i].writer == Encoding && |run[i].books.batch| < run[i].held ==> !AllIdsUsed(run[i].books.ids)
  {
    RunKeeps(Throughput(window), run, actions, i);
    if run[i].writer == Encoding && |run[i].books.batch| < run[i].held { FreeIdForEveryPermit(run[i]); }
  }

  /** Throughput: between batches, with the reader at rest, every permit is free or pays for a live publish. */
  lemma NoPermitIsLost(window: nat, run: seq<State>, actions: seq<Action>, i: nat)
    requires 1 <= window <= U16_MAX && IsRun(Throughput(window), run, actions) && i < |run|
    requires BetweenBatches(run[i].writer) && ReaderAtRest(run[i])
    ensures run[i].avail + |run[i].books.live| == window
  {
    RunKeeps(Throughput(window), run, actions, i);
  }

  /** Both modes: the in-flight counter never wraps, and is zero only when every publish begun is acknowledged. */
  lemma InFlightNeverWraps(mode: Mode, run: seq<State>, actions: seq<Action>, i: nat)
    requires ValidMode(mode) && IsRun(mode, run, actions) && i < |run|
    ensures run[i].reader == Permitted ==> run[i].inFlight >= 1
    ensures run[i].inFlight == 0 ==> |run[i].books.live| == 0 && ReaderAtRest(run[i])
  {
    RunKeeps(mode, run, actions, i);
  }

  lemma {:induction false} InjectiveValues(m: map<nat, nat>)
    requires Injective(m)
    ensures |m.Values| == |m|
  {
    if m == map[] {
      assert m.Values == {};
    } else {
      var k :| k in m;
      var rest := m - {k};
      InjectiveValues(rest);
      assert m.Keys == rest.Keys + {k};
      assert m.Values == rest.Values + {m[k]};
    }
  }

  lemma {:induction false} FullRange(s: set<nat>, n: nat)
    requires (forall p | p in s :: IsPublish(p, n)) && |s| == n
    ensures forall p: nat :: p in s <==> IsPublish(p, n)
  {
    if n > 0 {
      var all := s - {n - 1};
      if n - 1 !in s {
        TooManyForRange(s, n - 1);
      } else {
        FullRange(all, n - 1);
      }
      forall p: nat | IsPublish(p, n) ensures p in s {
        if p < n - 1 { assert IsPublish(p, n - 1); }
      }
    }
  }

  lemma {:induction false} TooManyForRange(s: set<nat>, n: nat)
    requires forall p | p in s :: p < n
    ensures |s| <= n
  {
    if n == 0 {
      assert s == {};
    } else {
      TooManyForRange(s - {n - 1}, n - 1);
    }
  }

  /**
    Teardown, both modes and every exit: a closed session has offered exactly what it counts acked
    plus what it counts stalled, and no publish is counted in both.
    */
  lemma ClosedSessionsBalance(mode: Mode, run: seq<State>, actions: seq<Action>, i: nat)
    requires ValidMode(mode) && IsRun(mode, run, actions) && i < |run| && run[i].writer == Closed
    ensures var s := run[i];
            && s.offered == s.acked + s.stalled
            && |s.books.ackedPubs| == s.acked && |s.books.live.Values| == s.stalled
            && s.books.ackedPubs !! s.books.live.Values
            && forall p: nat :: p in s.books.ackedPubs + s.books.live.Values <==> p < s.offered
  {
    RunKeeps(mode, run, actions, i);
    var b := run[i].books;
    InjectiveValues(b.live);
    forall p | p in b.live.Values ensures p !in b.ackedPubs && IsPublish(p, Begun(b)) {
      var id :| id in b.live && b.live[id] == p;
    }
    var all := b.ackedPubs + b.live.Values;
    assert |all| == |b.ackedPubs| + |b.live.Values|;
    FullRange(all, Begun(b));
    forall p: nat ensures p in all <==> p < run[i].offered {
      assert IsPublish(p, Begun(b)) <==> p < run[i].offered;
    }
  }

  /** The acknowledgement block of the reader, run without the writer in between. */
  function AckBlock(s: State, id: nat): State {
    var r := OnPuback(s, id);
    if r.reader != Released then r
    else
      var t := Apply(Apply(r, CountAck), AddPermit);
      Apply(t, SubInFlight)
  }

  /** An acknowledgement wraps the in-flight counter exactly when nothing is in flight. */
  lemma AckBlockWraps(s: State, id: nat)
    requires id in s.books.ids && s.inFlight <= U64_MAX
    ensures AckBlock(s, id).inFlight == U64_MAX <==> s.inFlight == 0
    ensures s.inFlight > 0 ==> AckBlock(s, id).inFlight == s.inFlight - 1
  {
  }

  /**
    The environment assumption is needed. A latency session holding its first id has nothing in
    flight; a peer that acknowledges the id before its PUBLISH is written makes the in-flight
    counter wrap.
    */
  lemma EarlyAckWrapsInFlight(id: nat) returns (run: seq<State>, actions: seq<Action>)
    requires IsId(id)
    ensures IsRun(Latency, run, actions) && id in run[|actions|].books.batch
    ensures AckBlock(run[|actions|], id).inFlight == U64_MAX
  {
    var start := Init(Latency);
    var encoding := Apply(start, StartBatch);
    var holding := Apply(encoding, Allocate(id));
    run, actions := [start, encoding, holding], [StartBatch, Allocate(id)];
    assert holding.books == Books({id}, [id], map[], {});
    AckBlockWraps(holding, id);
  }
}
