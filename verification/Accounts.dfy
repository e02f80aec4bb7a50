/** The accounts of one latency connection as values: slots, stamps, packet ids and lateness, step by step. */
module Accounts {
  import opened Arith
  import opened Histogram
  import opened Pacer
  import opened Payload
  import Wire

  /** Why slots are missed. */
  datatype Cause =
    | AtWindowEnd(reading: nat)   // the clock had reached the window end
    | AfterBrokenWrite            // a write before them broke
    | NoFreeId(reading: nat)      // they were due, and every packet id was in use

  /** Missed slots by cause. */
  datatype Losses = Losses(
    atWindowEnd: nat,
    endReading: nat,       // the clock reading that ended them
    afterBrokenWrite: nat,
    noFreeId: nat,
    noIdEnd: nat,          // one past the last of those without an id
    noIdReading: nat)      // the clock reading those were due by

  /** What one connection adds to the run's counters. */
  datatype Counters = Counters(
    offered: nat,
    missed: nat,
    acked: nat,
    stalled: nat,
    inFlight: nat,
    protocolErrors: nat,
    lateness: Histogram,
    latenessOver: nat)

  /** The pacer's variables. */
  datatype Progress = Progress(
    nextSlotK: nat,
    batch: seq<Wire.Slot>,
    first: nat,          // slot of the batch's first entry
    sent: seq<nat>,      // slot of every publish offered, in order
    recorded: nat,       // publishes whose lateness is recorded
    sends: seq<nat>,     // when the write of every publish recorded had completed
    nextSeq: u64,        // sequence number of the next publish encoded
    stamps: seq<Stamp>,  // stamps read back from every buffer submitted
    lost: Losses)

  const START: Progress := Progress(0, [], 0, [], 0, [], 0, [], Losses(0, 0, 0, 0, 0, 0))

  const NO_COUNTS: Counters := Counters(0, 0, 0, 0, 0, 0, [], 0)

  // ---------------------------------------------------------------- stamps

  /** The stamp publish number `i` of a connection owes its slot `k`. */
  function StampFor(cfg: GenConfig, connId: u32, i: nat, k: nat): Stamp
    requires cfg.rate >= 1
  {
    Stamp(connId, Sat64(i), Sat64(Due(cfg, connId, k)))
  }

  /** The stamps are those of the slots sent: sequence numbers from 0, each with its slot's due time. */
  ghost predicate Stamped(cfg: GenConfig, connId: u32, sent: seq<nat>, stamps: seq<Stamp>)
    requires cfg.rate >= 1
  {
    |stamps| == |sent| && forall i | 0 <= i < |stamps| :: stamps[i] == StampFor(cfg, connId, i, sent[i])
  }

  /** The stamps of a batch numbered on from what was sent are the stamps its slots are owed. */
  lemma BatchStampsFollow(cfg: GenConfig, connId: u32, sent: seq<nat>, stamps: seq<Stamp>, batch: seq<Wire.Slot>,
                          first: nat)
    requires cfg.rate >= 1 && BatchIs(cfg, connId, batch, first) && Stamped(cfg, connId, sent, stamps)
    ensures Stamped(cfg, connId, sent + Run(first, |batch|), stamps + Wire.BatchStamps(connId, batch, |sent|))
  {
    var more := Wire.BatchStamps(connId, batch, |sent|);
    var all, allSent := stamps + more, sent + Run(first, |batch|);
    forall i | 0 <= i < |all| ensures all[i] == StampFor(cfg, connId, i, allSent[i]) {
      if i >= |sent| {
        assert all[i] == more[i - |sent|] && allSent[i] == first + (i - |sent|);
        OneStamp(cfg, connId, batch[i - |sent|], allSent[i], i);
      }
    }
  }

  lemma OneStamp(cfg: GenConfig, connId: u32, slot: Wire.Slot, k: nat, i: nat)
    requires cfg.rate >= 1 && slot.dueNs == Due(cfg, connId, k)
    ensures Wire.SlotStamp(connId, slot, i) == StampFor(cfg, connId, i, k)
  {
  }

  // ---------------------------------------------------------------- packet ids

  /** The packet ids a batch holds. */
  function PendingIds(batch: seq<Wire.Slot>): set<nat> {
    if batch == [] then {}
    else
      var last := batch[|batch| - 1];
      PendingIds(batch[..|batch| - 1]) + (if last.packetId.Some? then {last.packetId.value} else {})
  }

  lemma PendingPush(batch: seq<Wire.Slot>, slot: Wire.Slot)
    ensures PendingIds(batch + [slot])
         == PendingIds(batch) + (if slot.packetId.Some? then {slot.packetId.value} else {})
  {
    assert (batch + [slot])[..|batch|] == batch;
  }

  /** Every publish of a QoS 1 batch has an id of its own; a QoS 0 batch has none. */
  ghost predicate BatchHasIds(qos: nat, batch: seq<Wire.Slot>) {
    && Wire.BatchFits(qos, batch)
    && (qos == 0 ==> forall i | 0 <= i < |batch| :: batch[i].packetId.None?)
    && |PendingIds(batch)| == if qos == 1 then |batch| else 0
  }

  lemma PushKeepsIds(qos: nat, batch: seq<Wire.Slot>, slot: Wire.Slot)
    requires BatchHasIds(qos, batch) && Wire.SlotFits(qos, slot)
    requires if qos == 1 then slot.packetId.value !in PendingIds(batch) else slot.packetId.None?
    ensures BatchHasIds(qos, batch + [slot])
  {
    PendingPush(batch, slot);
  }

  /** Ids in use are those in flight and those of the batch; each publish is acked or in flight. */
  ghost predicate IdsAccounted(qos: nat, used: set<nat>, submitted: set<nat>, pending: set<nat>, offered: nat,
                               acked: nat, inFlight: nat) {
    && used == submitted + pending && submitted !! pending
    && inFlight == |submitted|
    && (if qos == 1 then offered == acked + inFlight else acked == 0 && inFlight == 0)
  }

  lemma AckAccounted(used: set<nat>, submitted: set<nat>, pending: set<nat>, offered: nat, acked: nat, inFlight: nat,
                     id: nat)
    requires IdsAccounted(1, used, submitted, pending, offered, acked, inFlight) && id in used && id !in pending
    ensures inFlight >= 1
    ensures IdsAccounted(1, used - {id}, submitted - {id}, pending, offered, acked + 1, inFlight - 1)
  {
    assert |submitted - {id}| == |submitted| - 1;
  }

  lemma SubmitAccounted(qos: nat, used: set<nat>, submitted: set<nat>, batch: seq<Wire.Slot>, offered: nat,
                        acked: nat, inFlight: nat)
    requires IdsAccounted(qos, used, submitted, PendingIds(batch), offered, acked, inFlight) && BatchHasIds(qos, batch)
    ensures IdsAccounted(qos, used, submitted + PendingIds(batch), PendingIds([]), offered + |batch|, acked,
                         if qos == 1 then inFlight + |batch| else inFlight)
  {
    assert |submitted + PendingIds(batch)| == |submitted| + |PendingIds(batch)|;
  }

  // ---------------------------------------------------------------- the invariant of a connection

  /** Every slot before `nextSlotK` is offered, missed or in the batch. */
  ghost predicate SlotsOk(cfg: GenConfig, connId: u32, p: Progress, c: Counters) {
    && Accepts(cfg) && connId < cfg.connections
    && SlotsAccounted(p.sent, c.missed, |p.batch|, p.first, p.nextSlotK, Own(cfg, connId))
    && BatchIs(cfg, connId, p.batch, p.first)
    && c.offered == |p.sent|
    && Stamped(cfg, connId, p.sent, p.stamps)
  }

  /**
    Every missed slot is counted under one cause: the clock at or past the window end, a broken write, or
    no free id, and then it is one of the slots that were due. `next` bounds the slots passed.
    */
  predicate LossesOk(cfg: GenConfig, connId: nat, lost: Losses, missed: nat, next: nat)
    requires cfg.rate >= 1
  {
    && missed == lost.atWindowEnd + lost.afterBrokenWrite + lost.noFreeId
    && (lost.atWindowEnd > 0 ==> cfg.window.endNs <= lost.endReading)
    && lost.noFreeId <= lost.noIdEnd <= next
    && (lost.noIdEnd > 0 ==> Due(cfg, connId, lost.noIdEnd - 1) <= lost.noIdReading)
  }

  /** In-window publishes whose lateness is reported at bucket `top`: written at `sends[i]`, due as slot `slots[i]`. */
  function CountLateAt(cfg: GenConfig, connId: nat, slots: seq<nat>, sends: seq<nat>, top: nat): nat
    requires cfg.rate >= 1 && |sends| == |slots|
  {
    if slots == [] then 0
    else
      var last := |slots| - 1;
      var due := Due(cfg, connId, slots[last]);
      CountLateAt(cfg, connId, slots[..last], sends[..last], top)
      + if cfg.window.startNs <= due < cfg.window.endNs && sends[last] <= due + LATENCY_MAX_NS
           && BucketTop(if sends[last] > due then sends[last] - due else 1) == top
        then 1 else 0
  }

  /** In-window publishes written more than the histogram's range after they were due. */
  function CountTooLate(cfg: GenConfig, connId: nat, slots: seq<nat>, sends: seq<nat>): nat
    requires cfg.rate >= 1 && |sends| == |slots|
  {
    if slots == [] then 0
    else
      var last := |slots| - 1;
      var due := Due(cfg, connId, slots[last]);
      CountTooLate(cfg, connId, slots[..last], sends[..last])
      + if cfg.window.startNs <= due < cfg.window.endNs && sends[last] > due + LATENCY_MAX_NS then 1 else 0
  }

  lemma {:induction false} LateConcat(cfg: GenConfig, connId: nat, a: seq<nat>, sa: seq<nat>, b: seq<nat>, sb: seq<nat>,
                                      top: nat)
    requires cfg.rate >= 1 && |a| == |sa| && |b| == |sb|
    ensures CountLateAt(cfg, connId, a + b, sa + sb, top)
         == CountLateAt(cfg, connId, a, sa, top) + CountLateAt(cfg, connId, b, sb, top)
    ensures CountTooLate(cfg, connId, a + b, sa + sb)
         == CountTooLate(cfg, connId, a, sa) + CountTooLate(cfg, connId, b, sb)
    decreases |b|
  {
    if b == [] {
      assert a + b == a && sa + sb == sa;
    } else {
      var last := |b| - 1;
      assert (a + b)[..|a + b| - 1] == a + b[..last] && (sa + sb)[..|a + b| - 1] == sa + sb[..last];
      LateConcat(cfg, connId, a, sa, b[..last], sb[..last], top);
    }
  }

  /** The report holds exactly the lateness of the in-window publishes recorded, bucket by bucket. */
  ghost predicate LatenessOk(cfg: GenConfig, connId: nat, slots: seq<nat>, sends: seq<nat>, h: Histogram, over: nat)
    requires cfg.rate >= 1
  {
    && |sends| == |slots| && WellFormed(h)
    && Total(h) + over == CountInWindow(cfg, connId, slots)
    && (forall top: nat {:trigger CountAt(h, top)} :: CountAt(h, top) == CountLateAt(cfg, connId, slots, sends, top))
    && over == CountTooLate(cfg, connId, slots, sends)
  }

  ghost predicate ReportOk(cfg: GenConfig, connId: u32, p: Progress, c: Counters)
    requires cfg.rate >= 1
  {
    p.recorded <= |p.sent| && LatenessOk(cfg, connId, p.sent[..p.recorded], p.sends, c.lateness, c.latenessOver)
  }

  /** The accounts of a connection: its slots, its missed slots, its lateness report and its packet ids. */
  ghost predicate StateOk(cfg: GenConfig, connId: u32, p: Progress, c: Counters, used: set<nat>, submitted: set<nat>) {
    match p
    case Progress(next, batch, _, _, _, _, _, _, lost) =>
      && SlotsOk(cfg, connId, p, c) && LossesOk(cfg, connId, lost, c.missed, next) && ReportOk(cfg, connId, p, c)
      && IdsAccounted(cfg.qos, used, submitted, PendingIds(batch), c.offered, c.acked, c.inFlight)
  }

  /** Once anything was sent a write start has passed through the shared cell, and none was lost from it. */
  ghost predicate StartsOk(cfg: GenConfig, p: Progress, before: set<u64>, originNs: u64, endNs: u64, passed: set<u64>) {
    originNs == cfg.origin && endNs == cfg.window.endNs && before <= passed && (p.sent != [] ==> passed != {})
  }

  /** What made slots missed did happen: a clock reading, a broken write, a refused allocation. */
  predicate Happened(lost: Losses, now: nat, broken: bool, refusals: nat) {
    && lost.endReading <= now && lost.noIdReading <= now
    && (lost.afterBrokenWrite > 0 ==> broken)
    && (lost.noFreeId > 0 ==> refusals > 0)
  }

  /** Accounts that reached the last slot with no reading at the window end, no break and no refusal miss nothing. */
  lemma NothingMissed(cfg: GenConfig, connId: u32, p: Progress, c: Counters, used: set<nat>, submitted: set<nat>,
                      now: nat, refusals: nat)
    requires StateOk(cfg, connId, p, c, used, submitted) && p.batch == [] && p.nextSlotK == Own(cfg, connId)
    requires Happened(p.lost, now, false, refusals)
    ensures now < cfg.window.endNs && refusals == 0 ==> c.missed == 0 && p.sent == Run(0, Own(cfg, connId))
  {
    if now < cfg.window.endNs && refusals == 0 { FullIsRun(p.sent, Own(cfg, connId)); }
  }

  // ---------------------------------------------------------------- steps of the reader

  function Acknowledged(c: Counters): Counters
    requires c.inFlight >= 1
  {
    c.(acked := c.acked + 1, inFlight := c.inFlight - 1)
  }

  lemma AckKeeps(cfg: GenConfig, connId: u32, p: Progress, c: Counters, used: set<nat>, submitted: set<nat>, id: nat)
    requires StateOk(cfg, connId, p, c, used, submitted) && cfg.qos == 1 && id in used && id !in PendingIds(p.batch)
    ensures c.inFlight >= 1 && StateOk(cfg, connId, p, Acknowledged(c), used - {id}, submitted - {id})
  {
    AckAccounted(used, submitted, PendingIds(p.batch), c.offered, c.acked, c.inFlight, id);
  }

  /** The accounts do not read the error counters. */
  lemma ErrorsKeep(cfg: GenConfig, connId: u32, p: Progress, c: Counters, used: set<nat>, submitted: set<nat>,
                   protocolErrors: nat, stalled: nat)
    requires StateOk(cfg, connId, p, c, used, submitted)
    ensures StateOk(cfg, connId, p, c.(protocolErrors := protocolErrors, stalled := stalled), used, submitted)
  {
  }

  // ---------------------------------------------------------------- steps of the pacer

  /** `n` more slots missed for one cause, the last of them before `next`. */
  function Lose(lost: Losses, n: nat, next: nat, cause: Cause): Losses {
    match cause
    case AtWindowEnd(t) => lost.(atWindowEnd := lost.atWindowEnd + n, endReading := t)
    case AfterBrokenWrite => lost.(afterBrokenWrite := lost.afterBrokenWrite + n)
    case NoFreeId(t) => lost.(noFreeId := lost.noFreeId + n, noIdEnd := next, noIdReading := t)
  }

  function Missed(c: Counters, n: nat): Counters {
    c.(missed := c.missed + n)
  }

  /** The slots up to `next` are missed. */
  function Skipped(p: Progress, next: nat, cause: Cause): Progress
    requires p.nextSlotK <= next
  {
    p.(nextSlotK := next, lost := Lose(p.lost, next - p.nextSlotK, next, cause))
  }

  lemma SkipKeeps(cfg: GenConfig, connId: u32, p: Progress, c: Counters, used: set<nat>, submitted: set<nat>, next: nat,
                  cause: Cause)
    requires StateOk(cfg, connId, p, c, used, submitted) && p.nextSlotK <= next <= Own(cfg, connId)
    requires cause.AtWindowEnd? ==> cfg.window.endNs <= cause.reading
    requires cause.NoFreeId? ==> p.nextSlotK < next && Due(cfg, connId, next - 1) <= cause.reading
    ensures StateOk(cfg, connId, Skipped(p, next, cause), Missed(c, next - p.nextSlotK), used, submitted)
  {
  }

  /** Without a batch, the next one may begin at any slot from the next one on. */
  lemma RebaseKeeps(cfg: GenConfig, connId: u32, p: Progress, c: Counters, used: set<nat>, submitted: set<nat>)
    requires StateOk(cfg, connId, p, c, used, submitted) && p.batch == []
    ensures StateOk(cfg, connId, p.(first := p.nextSlotK), c, used, submitted)
  {
  }

  function Pushed(p: Progress, slot: Wire.Slot): Progress {
    p.(batch := p.batch + [slot], nextSlotK := p.nextSlotK + 1)
  }

  function IdOf(slot: Wire.Slot): set<nat> {
    if slot.packetId.Some? then {slot.packetId.value} else {}
  }

  lemma PushKeeps(cfg: GenConfig, connId: u32, p: Progress, c: Counters, used: set<nat>, submitted: set<nat>,
                  slot: Wire.Slot)
    requires StateOk(cfg, connId, p, c, used, submitted) && BatchHasIds(cfg.qos, p.batch)
    requires p.first + |p.batch| == p.nextSlotK < Own(cfg, connId) && slot.dueNs == Due(cfg, connId, p.nextSlotK)
    requires Wire.SlotFits(cfg.qos, slot) && (cfg.qos != 1 ==> slot.packetId.None?) && IdOf(slot) !! used
    ensures StateOk(cfg, connId, Pushed(p, slot), c, used + IdOf(slot), submitted)
    ensures BatchHasIds(cfg.qos, Pushed(p, slot).batch)
  {
    PushKeepsSlots(cfg, connId, p, c, slot);
    PendingPush(p.batch, slot);
    PushKeepsIds(cfg.qos, p.batch, slot);
  }

  lemma PushKeepsSlots(cfg: GenConfig, connId: u32, p: Progress, c: Counters, slot: Wire.Slot)
    requires SlotsOk(cfg, connId, p, c) && p.first + |p.batch| == p.nextSlotK < Own(cfg, connId)
    requires slot.dueNs == Due(cfg, connId, p.nextSlotK)
    ensures SlotsOk(cfg, connId, Pushed(p, slot), c)
  {
  }

  /** The sequence number moves past the batch. */
  lemma EncodeKeeps(cfg: GenConfig, connId: u32, p: Progress, c: Counters, used: set<nat>, submitted: set<nat>,
                    nextSeq: u64)
    requires StateOk(cfg, connId, p, c, used, submitted)
    ensures StateOk(cfg, connId, p.(nextSeq := nextSeq), c, used, submitted)
  {
  }

  function SubmittedCounters(qos: nat, c: Counters, n: nat): Counters {
    c.(offered := c.offered + n, inFlight := if qos == 1 then c.inFlight + n else c.inFlight)
  }

  function SubmittedProgress(p: Progress, stamps: seq<Stamp>): Progress {
    p.(sent := p.sent + Run(p.first, |p.batch|), batch := [], first := p.nextSlotK, stamps := p.stamps + stamps)
  }

  lemma SubmitKeeps(cfg: GenConfig, connId: u32, p: Progress, c: Counters, used: set<nat>, submitted: set<nat>,
                    stamps: seq<Stamp>)
    requires StateOk(cfg, connId, p, c, used, submitted) && BatchHasIds(cfg.qos, p.batch)
    requires stamps == Wire.BatchStamps(connId, p.batch, |p.sent|)
    ensures StateOk(cfg, connId, SubmittedProgress(p, stamps), SubmittedCounters(cfg.qos, c, |p.batch|), used,
                    submitted + PendingIds(p.batch))
  {
    SubmitKeepsSlots(cfg, connId, p, c, stamps);
    SubmitAccounted(cfg.qos, used, submitted, p.batch, c.offered, c.acked, c.inFlight);
  }

  /** Once submitted, the batch is what is not yet recorded. */
  lemma BatchToSend(cfg: GenConfig, connId: u32, p: Progress, c: Counters, used: set<nat>, submitted: set<nat>,
                    stamps: seq<Stamp>)
    requires StateOk(cfg, connId, p, c, used, submitted) && p.recorded == |p.sent|
    ensures BatchIs(cfg, connId, p.batch, p.first) && Unrecorded(SubmittedProgress(p, stamps), p.first, |p.batch|)
  {
  }

  lemma SubmitKeepsSlots(cfg: GenConfig, connId: u32, p: Progress, c: Counters, stamps: seq<Stamp>)
    requires SlotsOk(cfg, connId, p, c) && ReportOk(cfg, connId, p, c)
    requires stamps == Wire.BatchStamps(connId, p.batch, |p.sent|)
    ensures SlotsOk(cfg, connId, SubmittedProgress(p, stamps), SubmittedCounters(cfg.qos, c, |p.batch|))
    ensures ReportOk(cfg, connId, SubmittedProgress(p, stamps), SubmittedCounters(cfg.qos, c, |p.batch|))
  {
    SentBatch(p.sent, c.missed, |p.batch|, p.first, p.nextSlotK, Own(cfg, connId));
    BatchStampsFollow(cfg, connId, p.sent, p.stamps, p.batch, p.first);
    assert SubmittedProgress(p, stamps).sent[..p.recorded] == p.sent[..p.recorded];
  }

  function Dropped(p: Progress, cause: Cause): Progress {
    p.(batch := [], lost := Lose(p.lost, |p.batch|, p.nextSlotK, cause))
  }

  /** The slots of the batch are missed, and its ids are free again. */
  lemma DropKeeps(cfg: GenConfig, connId: u32, p: Progress, c: Counters, used: set<nat>, submitted: set<nat>,
                  cause: Cause)
    requires StateOk(cfg, connId, p, c, used, submitted) && !cause.NoFreeId?
    requires cause.AtWindowEnd? ==> cfg.window.endNs <= cause.reading
    ensures StateOk(cfg, connId, Dropped(p, cause), Missed(c, |p.batch|), submitted, submitted)
  {
    assert PendingIds([]) == {};
    assert SlotsOk(cfg, connId, Dropped(p, cause), Missed(c, |p.batch|));
  }

  /** What collecting a batch may change besides the batch itself. */
  ghost predicate OnlyCollected(p: Progress, c: Counters, p': Progress, c': Counters) {
    && c' == c.(acked := c'.acked, inFlight := c'.inFlight, protocolErrors := c'.protocolErrors, missed := c'.missed)
    && p' == p.(nextSlotK := p'.nextSlotK, batch := p'.batch, first := p'.first, lost := p'.lost)
    && p.nextSlotK <= p'.nextSlotK
  }

  // ---------------------------------------------------------------- lateness

  /** `n` publishes written at `sendNs`. */
  function SentAt(sendNs: nat, n: nat): (s: seq<nat>)
    ensures |s| == n && forall i | 0 <= i < n :: s[i] == sendNs
  {
    if n == 0 then [] else SentAt(sendNs, n - 1) + [sendNs]
  }

  /** The report grew by the lateness of `n` slots from `first`, all written at `sendNs`. */
  ghost predicate Samples(cfg: GenConfig, connId: nat, h: Histogram, over: nat, first: nat, n: nat, sendNs: nat,
                          lateness: Histogram, latenessOver: nat)
    requires cfg.rate >= 1
  {
    && WellFormed(lateness)
    && Total(lateness) + latenessOver == Total(h) + over + CountInWindow(cfg, connId, Run(first, n))
    && (forall top: nat {:trigger CountAt(lateness, top)} ::
          CountAt(lateness, top) == CountAt(h, top) + CountLateAt(cfg, connId, Run(first, n), SentAt(sendNs, n), top))
    && latenessOver == over + CountTooLate(cfg, connId, Run(first, n), SentAt(sendNs, n))
  }

  lemma NoSamples(cfg: GenConfig, connId: nat, h: Histogram, over: nat, first: nat, sendNs: nat)
    requires cfg.rate >= 1 && WellFormed(h)
    ensures Samples(cfg, connId, h, over, first, 0, sendNs, h, over)
  {
    var slots, sends := Run(first, 0), SentAt(sendNs, 0);
    assert slots == [];
    assert CountInWindow(cfg, connId, slots) == 0 && CountTooLate(cfg, connId, slots, sends) == 0;
    forall top: nat ensures CountLateAt(cfg, connId, slots, sends, top) == 0 {}
  }

  /** One more slot, written at `sendNs`. */
  lemma LateStep(cfg: GenConfig, connId: nat, first: nat, n: nat, sendNs: nat, top: nat)
    requires cfg.rate >= 1
    ensures var due := Due(cfg, connId, first + n);
            var inWindow := cfg.window.startNs <= due < cfg.window.endNs;
            var delay := if sendNs > due then sendNs - due else 1;
            && CountLateAt(cfg, connId, Run(first, n + 1), SentAt(sendNs, n + 1), top)
               == CountLateAt(cfg, connId, Run(first, n), SentAt(sendNs, n), top)
                  + (if inWindow && sendNs <= due + LATENCY_MAX_NS && BucketTop(delay) == top then 1 else 0)
            && CountTooLate(cfg, connId, Run(first, n + 1), SentAt(sendNs, n + 1))
               == CountTooLate(cfg, connId, Run(first, n), SentAt(sendNs, n))
                  + (if inWindow && sendNs > due + LATENCY_MAX_NS then 1 else 0)
            && CountInWindow(cfg, connId, Run(first, n + 1))
               == CountInWindow(cfg, connId, Run(first, n)) + (if inWindow then 1 else 0)
  {
    var slots, sends := Run(first, n + 1), SentAt(sendNs, n + 1);
    assert slots[..n] == Run(first, n) && sends[..n] == SentAt(sendNs, n);
  }

  lemma OneMoreSample(cfg: GenConfig, connId: nat, h: Histogram, over: nat, first: nat, n: nat, sendNs: nat,
                      lateness: Histogram, latenessOver: nat)
    requires cfg.rate >= 1 && Samples(cfg, connId, h, over, first, n, sendNs, lateness, latenessOver)
    ensures var due := Due(cfg, connId, first + n);
            var value := SatSub(sendNs, due);
            && (!cfg.window.Contains(due) ==>
                  Samples(cfg, connId, h, over, first, n + 1, sendNs, lateness, latenessOver))
            && (cfg.window.Contains(due) && value > LATENCY_MAX_NS ==>
                  Samples(cfg, connId, h, over, first, n + 1, sendNs, lateness, latenessOver + 1))
            && (cfg.window.Contains(due) && value <= LATENCY_MAX_NS ==>
                  Samples(cfg, connId, h, over, first, n + 1, sendNs, Record(lateness, Max(value, 1)), latenessOver))
  {
    var due := Due(cfg, connId, first + n);
    var value := SatSub(sendNs, due);
    if cfg.window.Contains(due) && value <= LATENCY_MAX_NS {
      InRangeSample(cfg, connId, h, over, first, n, sendNs, lateness, latenessOver);
    } else {
      LateStep(cfg, connId, first, n, sendNs, 0);
      forall top: nat
        ensures CountLateAt(cfg, connId, Run(first, n + 1), SentAt(sendNs, n + 1), top)
             == CountLateAt(cfg, connId, Run(first, n), SentAt(sendNs, n), top)
      {
        LateStep(cfg, connId, first, n, sendNs, top);
      }
    }
  }

  lemma InRangeSample(cfg: GenConfig, connId: nat, h: Histogram, over: nat, first: nat, n: nat, sendNs: nat,
                      lateness: Histogram, latenessOver: nat)
    requires cfg.rate >= 1 && Samples(cfg, connId, h, over, first, n, sendNs, lateness, latenessOver)
    requires cfg.window.Contains(Due(cfg, connId, first + n))
    requires SatSub(sendNs, Due(cfg, connId, first + n)) <= LATENCY_MAX_NS
    ensures Samples(cfg, connId, h, over, first, n + 1, sendNs,
                    Record(lateness, Max(SatSub(sendNs, Due(cfg, connId, first + n)), 1)), latenessOver)
  {
    var due := Due(cfg, connId, first + n);
    var sample := Max(SatSub(sendNs, due), 1);
    RecordCounts(lateness, sample, 0);
    LateStep(cfg, connId, first, n, sendNs, 0);
    forall top: nat
      ensures CountAt(Record(lateness, sample), top)
           == CountAt(h, top) + CountLateAt(cfg, connId, Run(first, n + 1), SentAt(sendNs, n + 1), top)
    {
      InRangeAt(cfg, connId, h, first, n, sendNs, lateness, due, sample, top);
    }
  }

  lemma InRangeAt(cfg: GenConfig, connId: nat, h: Histogram, first: nat, n: nat, sendNs: nat, lateness: Histogram,
                  due: nat, sample: nat, top: nat)
    requires cfg.rate >= 1 && due == Due(cfg, connId, first + n) && cfg.window.Contains(due)
    requires sample == Max(SatSub(sendNs, due), 1) && sample <= LATENCY_MAX_NS && WellFormed(lateness)
    requires CountAt(lateness, top)
          == CountAt(h, top) + CountLateAt(cfg, connId, Run(first, n), SentAt(sendNs, n), top)
    ensures CountAt(Record(lateness, sample), top)
         == CountAt(h, top) + CountLateAt(cfg, connId, Run(first, n + 1), SentAt(sendNs, n + 1), top)
  {
    RecordCounts(lateness, sample, top);
    LateStep(cfg, connId, first, n, sendNs, top);
  }

  /** Lateness of one completed batch: per in-window slot a sample at its bucket, or an over-range count. */
  method RecordLateness(cfg: GenConfig, connId: nat, batch: seq<Wire.Slot>, ghost first: nat, sendNs: nat,
                        h: Histogram, over: nat)
    returns (lateness: Histogram, latenessOver: nat)
    requires cfg.rate >= 1 && BatchIs(cfg, connId, batch, first) && WellFormed(h)
    ensures Samples(cfg, connId, h, over, first, |batch|, sendNs, lateness, latenessOver)
  {
    lateness, latenessOver := h, over;
    NoSamples(cfg, connId, h, over, first, sendNs);
    for i := 0 to |batch|
      invariant Samples(cfg, connId, h, over, first, i, sendNs, lateness, latenessOver)
    {
      OneMoreSample(cfg, connId, h, over, first, i, sendNs, lateness, latenessOver);
      var due := batch[i].dueNs;
      if cfg.window.Contains(due) {
        var value := SatSub(sendNs, due);
        if value > LATENCY_MAX_NS {
          latenessOver := latenessOver + 1;
        } else {
          lateness := Record(lateness, Max(value, 1));
        }
      }
    }
  }

  /** The publishes not yet recorded were written at `sendNs`. */
  function Recorded(p: Progress, sendNs: nat): Progress
    requires p.recorded <= |p.sent|
  {
    p.(recorded := |p.sent|, sends := p.sends + SentAt(sendNs, |p.sent| - p.recorded))
  }

  /** The last `n` publishes, slots from `first` on, have been submitted and not yet recorded. */
  predicate Unrecorded(p: Progress, first: nat, n: nat) {
    p.recorded + n == |p.sent| && p.sent[p.recorded..] == Run(first, n)
  }

  lemma FinishKeepsReport(cfg: GenConfig, connId: u32, p: Progress, c: Counters, first: nat, n: nat, sendNs: nat,
                          lateness: Histogram, over: nat)
    requires cfg.rate >= 1 && ReportOk(cfg, connId, p, c) && Unrecorded(p, first, n)
    requires Samples(cfg, connId, c.lateness, c.latenessOver, first, n, sendNs, lateness, over)
    ensures ReportOk(cfg, connId, Recorded(p, sendNs), c.(lateness := lateness, latenessOver := over))
  {
    SplitAt(p.sent, p.recorded);
    var q := Recorded(p, sendNs);
    assert q.sent[..q.recorded] == p.sent[..p.recorded] + Run(first, n) && q.sends == p.sends + SentAt(sendNs, n);
    SamplesJoin(cfg, connId, p.sent[..p.recorded], p.sends, c.lateness, c.latenessOver, first, n, sendNs, lateness,
                over);
  }

  lemma SamplesJoin(cfg: GenConfig, connId: nat, had: seq<nat>, sends: seq<nat>, h: Histogram, before: nat, first: nat,
                    n: nat, sendNs: nat, lateness: Histogram, over: nat)
    requires cfg.rate >= 1 && LatenessOk(cfg, connId, had, sends, h, before)
    requires Samples(cfg, connId, h, before, first, n, sendNs, lateness, over)
    ensures LatenessOk(cfg, connId, had + Run(first, n), sends + SentAt(sendNs, n), lateness, over)
  {
    CountInWindowConcat(cfg, connId, had, Run(first, n));
    LateConcat(cfg, connId, had, sends, Run(first, n), SentAt(sendNs, n), 0);
    forall top: nat
      ensures CountAt(lateness, top) == CountLateAt(cfg, connId, had + Run(first, n), sends + SentAt(sendNs, n), top)
    {
      LateConcat(cfg, connId, had, sends, Run(first, n), SentAt(sendNs, n), top);
    }
  }

  lemma SplitAt(s: seq<nat>, i: nat)
    requires i <= |s|
    ensures s[..i] + s[i..] == s[..|s|] == s
  {
  }

  lemma FinishKeeps(cfg: GenConfig, connId: u32, p: Progress, c: Counters, used: set<nat>, submitted: set<nat>,
                    first: nat, n: nat, sendNs: nat, lateness: Histogram, over: nat)
    requires StateOk(cfg, connId, p, c, used, submitted) && Unrecorded(p, first, n)
    requires Samples(cfg, connId, c.lateness, c.latenessOver, first, n, sendNs, lateness, over)
    ensures StateOk(cfg, connId, Recorded(p, sendNs), c.(lateness := lateness, latenessOver := over), used, submitted)
  {
    FinishKeepsReport(cfg, connId, p, c, first, n, sendNs, lateness, over);
  }

  /** Only what the reader may change differs. */
  predicate ReaderOnly(before: Counters, after: Counters) {
    && after == before.(acked := after.acked, inFlight := after.inFlight, protocolErrors := after.protocolErrors)
    && after.inFlight <= before.inFlight
  }

  /** The ids in use once the first `i` ids of an unwritten batch are released. */
  ghost function StillUsed(submitted: set<nat>, batch: seq<Wire.Slot>, i: nat): set<nat>
    requires i <= |batch|
  {
    submitted + (PendingIds(batch) - PendingIds(batch[..i]))
  }

  lemma ReleaseOne(submitted: set<nat>, batch: seq<Wire.Slot>, i: nat)
    requires BatchHasIds(1, batch) && i < |batch| && submitted !! PendingIds(batch)
    ensures batch[i].packetId.Some? && batch[i].packetId.value <= U16_MAX
    ensures StillUsed(submitted, batch, i + 1) == StillUsed(submitted, batch, i) - {batch[i].packetId.value}
  {
    assert Wire.SlotFits(1, batch[i]);
    assert batch[..i + 1] == batch[..i] + [batch[i]];
    PendingPush(batch[..i], batch[i]);
    PendingContains(batch, i);
  }

  lemma {:induction false} PendingContains(batch: seq<Wire.Slot>, i: nat)
    requires i < |batch| && batch[i].packetId.Some?
    ensures batch[i].packetId.value in PendingIds(batch)
  {
    if i < |batch| - 1 { PendingContains(batch[..|batch| - 1], i); }
  }
}
