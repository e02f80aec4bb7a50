/** One latency connection of the load generator, from its first slot to its teardown. */
module Connection {
  import opened Arith
  import opened Slots
  import opened Histogram
  import opened Ids
  import opened Pacer
  import opened Payload
  import opened Accounts
  import Wire

  /**
    How a pacer ends. A panic of the due-time conversion fails the whole run; a task still running at
    the hard deadline is aborted where it waits.
    */
  datatype PacerResult = Finished | WriteFailed | Panicked | Aborted

  datatype SendOutcome = Sent | WindowEnded | Failed | Cut

  /** Gives the ids of a batch back, one by one. */
  method ReleaseAll(ids: PacketIds, batch: seq<Wire.Slot>, ghost submitted: set<nat>)
    requires ids.Valid() && BatchHasIds(1, batch)
    requires ids.used == submitted + PendingIds(batch) && submitted !! PendingIds(batch)
    modifies ids, ids.bits
    ensures ids.Valid() && ids.used == submitted && ids.refusals == old(ids.refusals)
  {
    for i := 0 to |batch|
      invariant ids.Valid() && ids.used == StillUsed(submitted, batch, i) && ids.refusals == old(ids.refusals)
    {
      ReleaseOne(submitted, batch, i);
      var _ := ids.Release(batch[i].packetId.value);
    }
    assert batch[..|batch|] == batch;
  }

  class Connection {
    const cfg: GenConfig
    const connId: u32
    const clock: Clock
    const cell: WriteStartCell
    const task: Task
    const ids: PacketIds

    var p: Progress
    var c: Counters
    ghost var submitted: set<nat>    // ids in flight
    ghost const before: set<u64>     // write starts passed before this connection's own

    /** The connection's invariant between steps; every write start went through the shared cell. */
    ghost predicate Valid()
      reads this, clock, cell, task, ids, ids.bits
    {
      ValidFor(ids.used)
    }

    /** The invariant with the accounts as they were when the ids `used` were in use. */
    ghost predicate ValidFor(used: set<nat>)
      reads this, clock, cell, task, ids, ids.bits
    {
      && StateOk(cfg, connId, p, c, used, submitted) && ids.Valid()
      && StartsOk(cfg, p, before, cell.originNs, cell.endNs, cell.passed) && cell.Valid()
      && Happened(p.lost, clock.now, task.broken, ids.refusals)
    }

    constructor (cfg: GenConfig, connId: u32, clock: Clock, cell: WriteStartCell, task: Task)
      requires Accepts(cfg) && connId < cfg.connections
      requires cell.Valid() && cell.originNs == cfg.origin && cell.endNs == cfg.window.endNs
      ensures Valid() && p == START && c == NO_COUNTS
      ensures this.cfg == cfg && this.connId == connId && this.clock == clock && this.cell == cell && this.task == task
      ensures before == cell.passed && ids.refusals == 0
      ensures fresh(ids) && fresh(ids.bits)
    {
      this.cfg, this.connId, this.clock, this.cell, this.task := cfg, connId, clock, cell, task;
      ids := new PacketIds();
      p := START;
      c := NO_COUNTS;
      submitted := {};
      before := cell.passed;
    }

    // -------------------------------------------------------------- the environment

    method Now() returns (now: u64)
      requires Valid()
      modifies clock
      ensures Valid() && now == clock.now && old(clock.now) <= clock.now
    {
      now := clock.Read();
    }

    method WaitUntil(due: u64)
      requires Valid()
      modifies clock
      ensures Valid() && due <= clock.now && old(clock.now) <= clock.now
    {
      clock.WaitUntil(due);
    }

    method Wait() returns (cut: bool)
      requires Valid()
      modifies task`aborted
      ensures Valid() && task.aborted == (old(task.aborted) || cut)
    {
      cut := task.Wait();
    }

    method WriteAll() returns (o: WriteOutcome)
      requires Valid()
      modifies task`broken, task`aborted
      ensures Valid() && task.broken == (old(task.broken) || o.Broken?)
      ensures task.aborted == (old(task.aborted) || o.Interrupted?)
    {
      o := task.WriteAll();
    }

    // -------------------------------------------------------------- the reader

    /** One PUBACK of `qos1_latency_reader`; the peer acknowledges no id of an unwritten batch. */
    method ReaderStep(id: nat)
      requires Valid() && cfg.qos == 1 && id <= U16_MAX && id !in PendingIds(p.batch)
      modifies this`c, this`submitted, ids, ids.bits
      ensures Valid() && ReaderOnly(old(c), c) && ids.refusals == old(ids.refusals)
      ensures if id in old(ids.used)
              then && c.acked == old(c.acked) + 1 && c.inFlight + 1 == old(c.inFlight)
                   && c.protocolErrors == old(c.protocolErrors)
              else c == old(c).(protocolErrors := old(c.protocolErrors) + 1)
    {
      ghost var used := ids.used;
      var released := ids.Release(id);
      if released {
        CountAck(id, used);
      } else {
        assert ids.used == used;
        CountErrors(c.protocolErrors + 1, c.stalled);
      }
    }

    /** Counts the acknowledgement of an id just released. */
    method CountAck(ghost id: nat, ghost used: set<nat>)
      requires ValidFor(used) && ids.used == used - {id} && cfg.qos == 1 && id in used && id !in PendingIds(p.batch)
      modifies this`c, this`submitted
      ensures Valid() && old(c.inFlight) >= 1 && c == Acknowledged(old(c))
    {
      AckKeeps(cfg, connId, p, c, used, submitted, id);
      submitted := submitted - {id};
      c := Acknowledged(c);
    }

    method CountErrors(protocolErrors: nat, stalled: nat)
      requires Valid()
      modifies this`c
      ensures Valid() && c == old(c).(protocolErrors := protocolErrors, stalled := stalled)
    {
      ErrorsKeep(cfg, connId, p, c, ids.used, submitted, protocolErrors, stalled);
      c := c.(protocolErrors := protocolErrors, stalled := stalled);
    }

    /**
      What the reader does at a point where the tasks can interleave: any number of PUBACKs in any
      order, or, with QoS 0, any number of frames, each a protocol error.
      */
    method ReaderSteps()
      requires Valid()
      modifies this`c, this`submitted, ids, ids.bits
      ensures Valid() && ReaderOnly(old(c), c) && ids.refusals == old(ids.refusals)
    {
      if cfg.qos == 1 {
        var n: nat := *;
        while n > 0
          invariant Valid() && ReaderOnly(old(c), c) && ids.refusals == old(ids.refusals)
        {
          var id: nat := *;
          if id <= U16_MAX && id !in PendingIds(p.batch) {
            ReaderStep(id);
          }
          n := n - 1;
        }
      } else {
        var rejected: nat :| 0 <= rejected;
        CountErrors(c.protocolErrors + rejected, c.stalled);
      }
    }

    // -------------------------------------------------------------- missed slots

    /** The cause did happen. */
    ghost predicate Causes(cause: Cause)
      reads clock, task, ids
    {
      match cause
      case AtWindowEnd(t) => cfg.window.endNs <= t <= clock.now
      case AfterBrokenWrite => task.broken
      case NoFreeId(t) => t <= clock.now && ids.refusals > 0
    }

    /** The slots up to `next` are missed. */
    method Skip(next: nat, cause: Cause)
      requires Valid() && p.nextSlotK <= next <= Own(cfg, connId) && Causes(cause)
      requires cause.NoFreeId? ==> p.nextSlotK < next && Due(cfg, connId, next - 1) <= cause.reading
      modifies this`c, this`p
      ensures Valid() && c == Missed(old(c), next - old(p.nextSlotK)) && p == Skipped(old(p), next, cause)
    {
      SkipKeeps(cfg, connId, p, c, ids.used, submitted, next, cause);
      c := Missed(c, next - p.nextSlotK);
      p := Skipped(p, next, cause);
    }

    /** The next batch begins at the next slot. */
    method Rebase()
      requires Valid() && p.batch == []
      modifies this`p
      ensures Valid() && p == old(p).(first := old(p.nextSlotK))
    {
      RebaseKeeps(cfg, connId, p, c, ids.used, submitted);
      p := p.(first := p.nextSlotK);
    }

    /** `count_remaining_missed`: every slot from `nextSlotK` on. */
    method CountRemainingMissed(cause: Cause)
      requires Valid() && p.batch == [] && Causes(cause) && !cause.NoFreeId?
      modifies this`c, this`p
      ensures old(p.nextSlotK) <= Own(cfg, connId)
      ensures Valid() && c == Missed(old(c), Own(cfg, connId) - old(p.nextSlotK))
      ensures p == Skipped(old(p), Own(cfg, connId), cause).(first := Own(cfg, connId))
    {
      OwnIsScheduled(cfg, connId, p.nextSlotK);
      var own := OwnSlotCount(connId, cfg.connections, ScheduledSlots(cfg.rate, cfg.origin, cfg.window));
      var remaining := SatSub(own, p.nextSlotK);
      Skip(p.nextSlotK + Sat64(remaining), cause);
      Rebase();
    }

    /** The pacer gives up on every slot that is left. */
    method GiveUp(cause: Cause)
      requires Valid() && p.batch == [] && Causes(cause) && !cause.NoFreeId?
      modifies this`c, this`p
      ensures Valid() && p.batch == [] && p.nextSlotK == Own(cfg, connId)
      ensures p.sent == old(p.sent) && p.recorded == old(p.recorded) && c == old(c).(missed := c.missed)
    {
      CountRemainingMissed(cause);
    }

    /** `skip_past_due_missed`: exactly the slots already due, when no id is left to send one with. */
    method SkipPastDueMissed()
      requires Valid() && p.nextSlotK < Own(cfg, connId) && Due(cfg, connId, p.nextSlotK) <= clock.now
      requires ids.refusals > 0
      modifies this`c, this`p, clock
      ensures p.nextSlotK > old(p.nextSlotK) && clock.now >= old(clock.now)
      ensures Valid() && c == Missed(old(c), p.nextSlotK - old(p.nextSlotK))
      ensures p == Skipped(old(p), p.nextSlotK, NoFreeId(clock.now))
      ensures forall k: nat | old(p.nextSlotK) <= k ::
                k < p.nextSlotK <==> k < Own(cfg, connId) && Due(cfg, connId, k) <= clock.now
    {
      var now := Now();
      OwnIsScheduled(cfg, connId, p.nextSlotK);
      forall k: nat ensures k < DueBound(cfg, connId, now) <==> k < Own(cfg, connId) && Due(cfg, connId, k) <= now {
        DueBoundIsExact(cfg, connId, now, k);
      }
      var skipped := SatSub(DueBound(cfg, connId, now), p.nextSlotK);
      if skipped == 0 {
        return;
      }
      Skip(p.nextSlotK + Sat64(skipped), NoFreeId(now));
    }

    // -------------------------------------------------------------- collecting a batch

    /** The invariant while a batch is collected. */
    ghost predicate CollectOk()
      reads this, clock, cell, task, ids, ids.bits
    {
      Valid() && BatchHasIds(cfg.qos, p.batch)
    }

    /** Extends the batch by the slot at `nextSlotK`, whose id has just been allocated. */
    method PushSlot(slot: Wire.Slot, ghost used: set<nat>)
      requires ValidFor(used) && BatchHasIds(cfg.qos, p.batch) && ids.used == used + IdOf(slot)
      requires p.first + |p.batch| == p.nextSlotK < Own(cfg, connId) && slot.dueNs == Due(cfg, connId, p.nextSlotK)
      requires Wire.SlotFits(cfg.qos, slot) && (cfg.qos != 1 ==> slot.packetId.None?) && IdOf(slot) !! used
      modifies this`p
      ensures CollectOk() && p == Pushed(old(p), slot)
    {
      PushKeeps(cfg, connId, p, c, used, submitted, slot);
      p := Pushed(p, slot);
    }

    /** Gives the due slot a packet id, or misses every slot already due when none is left. */
    method TakeSlot(due: u64) returns (taken: bool)
      requires CollectOk() && p.first + |p.batch| == p.nextSlotK < Own(cfg, connId)
      requires due == Due(cfg, connId, p.nextSlotK) <= clock.now
      modifies this, clock, ids, ids.bits
      ensures CollectOk() && OnlyCollected(old(p), old(c), p, c) && clock.now >= old(clock.now)
      ensures p.nextSlotK > old(p.nextSlotK) && p.first == old(p.first)
      ensures if taken
              then p.first + |p.batch| == p.nextSlotK && |p.batch| == old(|p.batch|) + 1
              else p.batch == old(p.batch)
    {
      if cfg.qos != 1 {
        PushSlot(Wire.Slot(None, due), ids.used);
        return true;
      }
      ReaderSteps();
      ghost var used := ids.used;
      var id := ids.Allocate();
      if id.None? {
        SkipPastDueMissed();
        return false;
      }
      PushSlot(Wire.Slot(id, due), used);
      return true;
    }

    /** One pass of the collecting loop: `more` while another slot may join the batch. */
    method CollectSlot() returns (more: bool, panicked: bool)
      requires CollectOk() && p.first + |p.batch| == p.nextSlotK
      modifies this, clock, ids, ids.bits
      ensures CollectOk() && OnlyCollected(old(p), old(c), p, c) && clock.now >= old(clock.now)
      ensures p.first == old(p.first) && |p.batch| <= old(|p.batch|) + 1
      ensures more ==> !panicked && p.first + |p.batch| == p.nextSlotK && |p.batch| == old(|p.batch|) + 1
      ensures panicked ==> !DueTimesFit(cfg.connections, cfg.rate, cfg.origin, cfg.window)
      ensures old(p.nextSlotK < Own(cfg, connId) && Due(cfg, connId, p.nextSlotK) <= clock.now)
              ==> p.nextSlotK > old(p.nextSlotK)
    {
      OwnIsScheduled(cfg, connId, p.nextSlotK);
      ComputedDue(cfg, connId, p.nextSlotK);
      var computed := SlotDue(connId, p.nextSlotK, cfg.connections, cfg.rate, cfg.origin);
      if computed.None? {
        return false, true;
      }
      var due := computed.value;
      if due >= SlotGridEnd(cfg.window) {
        return false, false;
      }
      var now := Now();
      if due > now {
        return false, false;
      }
      more := TakeSlot(due);
      panicked := false;
    }

    /** `latency_collect_batch`: advances past at least one slot when the next one is due. */
    method CollectBatch() returns (panicked: bool)
      requires Valid() && p.batch == []
      modifies this, clock, ids, ids.bits
      ensures CollectOk() && OnlyCollected(old(p), old(c), p, c) && clock.now >= old(clock.now) && |p.batch| <= BATCH
      ensures panicked ==> !DueTimesFit(cfg.connections, cfg.rate, cfg.origin, cfg.window)
      ensures old(p.nextSlotK < Own(cfg, connId) && Due(cfg, connId, p.nextSlotK) <= clock.now)
              ==> p.nextSlotK > old(p.nextSlotK)
    {
      ghost var due := p.nextSlotK < Own(cfg, connId) && Due(cfg, connId, p.nextSlotK) <= clock.now;
      Rebase();
      var more := true;
      panicked := false;
      while more && |p.batch| < BATCH
        invariant CollectOk() && OnlyCollected(old(p), old(c), p, c) && clock.now >= old(clock.now)
        invariant |p.batch| <= BATCH
        invariant panicked ==> !DueTimesFit(cfg.connections, cfg.rate, cfg.origin, cfg.window)
        invariant more ==> !panicked && p.first + |p.batch| == p.nextSlotK
        invariant more && p.batch == [] ==> p.nextSlotK == old(p.nextSlotK)
        invariant !(more && p.batch == []) && due ==> p.nextSlotK > old(p.nextSlotK)
        decreases more, BATCH - |p.batch|
      {
        more, panicked := CollectSlot();
      }
    }

    // -------------------------------------------------------------- the gated write

    /** Once the gate has read a start before the window end, the batch is offered and in flight. */
    method Submit(start: u64, bytes: seq<byte>)
      requires CollectOk() && cfg.origin <= start < cfg.window.endNs
      requires Wire.StampsRead(bytes) == Wire.BatchStamps(connId, p.batch, |p.sent|)
      modifies this, cell
      ensures Valid() && p == SubmittedProgress(old(p), Wire.StampsRead(bytes))
      ensures c == SubmittedCounters(cfg.qos, old(c), old(|p.batch|))
      ensures start in cell.passed && start <= cell.value
    {
      cell.Update(start);
      Offer(Wire.StampsRead(bytes));
    }

    /** The batch leaves for the socket with the stamps its bytes carry. */
    method Offer(stamps: seq<Stamp>)
      requires CollectOk() && cell.passed != {} && stamps == Wire.BatchStamps(connId, p.batch, |p.sent|)
      modifies this
      ensures Valid() && p == SubmittedProgress(old(p), stamps)
      ensures c == SubmittedCounters(cfg.qos, old(c), old(|p.batch|))
    {
      SubmitKeeps(cfg, connId, p, c, ids.used, submitted, stamps);
      submitted := submitted + PendingIds(p.batch);
      c := SubmittedCounters(cfg.qos, c, |p.batch|);
      p := SubmittedProgress(p, stamps);
    }

    /** A completed write records the lateness of its slots. */
    method Complete(slots: seq<Wire.Slot>, ghost first: nat)
      requires Valid() && BatchIs(cfg, connId, slots, first) && Unrecorded(p, first, |slots|)
      modifies this`c, this`p, clock
      ensures Valid() && clock.now >= old(clock.now) && p == Recorded(old(p), clock.now)
      ensures c == old(c).(lateness := c.lateness, latenessOver := c.latenessOver)
    {
      var sendNs := Now();
      var lateness, over := RecordLateness(cfg, connId, slots, first, sendNs, c.lateness, c.latenessOver);
      Finish(first, |slots|, sendNs, lateness, over);
    }

    method Finish(ghost first: nat, ghost n: nat, sendNs: nat, lateness: Histogram, over: nat)
      requires Valid() && Unrecorded(p, first, n)
      requires Samples(cfg, connId, c.lateness, c.latenessOver, first, n, sendNs, lateness, over)
      modifies this`c, this`p
      ensures Valid() && p == Recorded(old(p), sendNs) && c == old(c).(lateness := lateness, latenessOver := over)
    {
      FinishKeeps(cfg, connId, p, c, ids.used, submitted, first, n, sendNs, lateness, over);
      c := c.(lateness := lateness, latenessOver := over);
      p := Recorded(p, sendNs);
      assert ids.Valid() && cell.Valid();
    }

    /** One `write_all` of a submitted batch, which may complete, fail, outlast the deadline or be aborted. */
    method Write(slots: seq<Wire.Slot>, ghost first: nat) returns (outcome: WriteOutcome)
      requires Valid() && BatchIs(cfg, connId, slots, first) && Unrecorded(p, first, |slots|)
      modifies this, clock, task`broken, task`aborted, ids, ids.bits
      ensures Valid() && clock.now >= old(clock.now) && c.missed == old(c.missed) && ids.refusals == old(ids.refusals)
      ensures p == if outcome.Written? then Recorded(old(p), clock.now) else old(p)
      ensures c.stalled == old(c.stalled) + if outcome.Broken? && cfg.qos != 1 then |slots| else 0
      ensures task.broken == (old(task.broken) || outcome.Broken?)
      ensures task.aborted == (old(task.aborted) || outcome.Interrupted?)
    {
      ReaderSteps();
      outcome := WriteAll();
      if outcome.Written? {
        Complete(slots, first);
      } else if outcome.Broken? && cfg.qos != 1 {
        CountErrors(c.protocolErrors, c.stalled + |slots|);
      }
    }

    /** `latency_send_batch`: the gate, one write that may end any way, and its bookkeeping. */
    method SendBatch(bytes: seq<byte>) returns (outcome: SendOutcome)
      requires CollectOk() && cfg.origin <= clock.now && p.recorded == |p.sent|
      requires Wire.StampsRead(bytes) == Wire.BatchStamps(connId, p.batch, |p.sent|)
      modifies this, clock, cell, task`broken, task`aborted, ids, ids.bits
      ensures Valid() && clock.now >= old(clock.now) && ids.refusals == old(ids.refusals)
      ensures c.missed == old(c.missed) && p.nextSlotK == old(p.nextSlotK) && p.nextSeq == old(p.nextSeq)
      ensures outcome.WindowEnded? ==> p == old(p) && c == old(c) && clock.now >= cfg.window.endNs
      ensures task.broken == (old(task.broken) || outcome.Failed?)
      ensures task.aborted == (old(task.aborted) || outcome.Cut?)
      ensures !outcome.WindowEnded? ==> p.batch == [] && p.sent == old(p.sent) + Run(old(p.first), old(|p.batch|))
      ensures outcome.Sent? ==> p.recorded == |p.sent|
      ensures c.stalled == old(c.stalled) + if outcome.Failed? && cfg.qos != 1 then old(|p.batch|) else 0
    {
      var start := Now();
      if start >= cfg.window.endNs {
        return WindowEnded;
      }
      var written := Transmit(start, bytes);
      return match written case Written => Sent case Broken => Failed case Interrupted => Cut;
    }

    /** The batch past the gate: submitted, then written. */
    method Transmit(start: u64, bytes: seq<byte>) returns (written: WriteOutcome)
      requires CollectOk() && cfg.origin <= start < cfg.window.endNs && p.recorded == |p.sent|
      requires Wire.StampsRead(bytes) == Wire.BatchStamps(connId, p.batch, |p.sent|)
      modifies this, clock, cell, task`broken, task`aborted, ids, ids.bits
      ensures Valid() && clock.now >= old(clock.now) && ids.refusals == old(ids.refusals)
      ensures c.missed == old(c.missed) && p.nextSlotK == old(p.nextSlotK) && p.nextSeq == old(p.nextSeq)
      ensures p.batch == [] && p.sent == old(p.sent) + Run(old(p.first), old(|p.batch|))
      ensures written.Written? ==> p.recorded == |p.sent|
      ensures c.stalled == old(c.stalled) + if written.Broken? && cfg.qos != 1 then old(|p.batch|) else 0
      ensures task.broken == (old(task.broken) || written.Broken?)
      ensures task.aborted == (old(task.aborted) || written.Interrupted?)
    {
      var slots, first := p.batch, p.first;
      BatchToSend(cfg, connId, p, c, ids.used, submitted, Wire.StampsRead(bytes));
      Submit(start, bytes);
      written := Write(slots, first);
    }

    /**
      `latency_encode_batch`: the sequence number moves past the batch, and the write buffer reads back
      as the batch's ids, sequence numbers and due times.
      */
    method EncodePending() returns (bytes: seq<byte>)
      requires CollectOk()
      modifies this`p
      ensures CollectOk() && p == old(p).(nextSeq := Sat64(old(p.nextSeq) + |p.batch|))
      ensures Wire.ReadAll(bytes).Some?
      ensures Wire.FramesOf(Wire.ReadAll(bytes).value, connId, cfg.qos, p.batch, old(p.nextSeq))
      ensures Wire.StampsRead(bytes) == Wire.BatchStamps(connId, p.batch, old(p.nextSeq))
    {
      var seqAfter;
      bytes, seqAfter := Wire.EncodeFresh(connId, cfg.qos, p.batch, p.nextSeq);
      MoveSeq(seqAfter);
    }

    method MoveSeq(nextSeq: u64)
      requires CollectOk()
      modifies this`p
      ensures CollectOk() && p == old(p).(nextSeq := nextSeq)
    {
      EncodeKeeps(cfg, connId, p, c, ids.used, submitted, nextSeq);
      p := p.(nextSeq := nextSeq);
    }

    // -------------------------------------------------------------- dropping a batch

    /** `latency_release_batch_ids`: the ids of an unwritten batch go back to the allocator. */
    method ReleaseBatchIds()
      requires CollectOk()
      modifies ids, ids.bits
      ensures ids.Valid() && ids.used == submitted && ids.refusals == old(ids.refusals)
    {
      if cfg.qos == 1 {
        ReleaseAll(ids, p.batch, submitted);
      }
    }

    /** `latency_drop_batch`: its slots and every later one are missed, the window having ended. */
    method DropBatch()
      requires CollectOk() && cfg.window.endNs <= clock.now
      modifies this`c, this`p, ids, ids.bits
      ensures p.batch == [] && p.nextSlotK == Own(cfg, connId) && p.sent == old(p.sent) && p.recorded == old(p.recorded)
      ensures Valid() && c == old(c).(missed := c.missed) && ids.refusals == old(ids.refusals)
    {
      ghost var used := ids.used;
      ReleaseBatchIds();
      DropOne(AtWindowEnd(clock.now), used);
      GiveUp(AtWindowEnd(clock.now));
    }

    /** The batch is missed, and its ids have been released. */
    method DropOne(cause: Cause, ghost used: set<nat>)
      requires ValidFor(used) && ids.used == submitted && Causes(cause) && !cause.NoFreeId?
      modifies this`c, this`p
      ensures Valid() && p == Dropped(old(p), cause) && c == Missed(old(c), old(|p.batch|))
    {
      DropKeeps(cfg, connId, p, c, used, submitted, cause);
      c := Missed(c, |p.batch|);
      p := Dropped(p, cause);
    }

    // -------------------------------------------------------------- the pacer

    /** The pacer has accounted for every slot of the connection. */
    ghost predicate Accounted()
      reads this, clock, cell, task, ids, ids.bits
    {
      Valid() && p.batch == [] && p.nextSlotK == Own(cfg, connId) && c.offered + c.missed == Own(cfg, connId)
    }

    /** What holds at the top of every pass: nothing is batched, and the next number is the count sent. */
    ghost predicate AtRest()
      reads this, clock, cell, task, ids, ids.bits
    {
      Valid() && p.batch == [] && p.recorded == |p.sent| && p.nextSeq == |p.sent|
    }

    /** Sends the batch, or drops it when its write would begin at or after the window end. */
    method SendOrDrop(bytes: seq<byte>) returns (done: Option<PacerResult>)
      requires CollectOk() && cfg.origin <= clock.now && p.recorded == |p.sent|
      requires Wire.StampsRead(bytes) == Wire.BatchStamps(connId, p.batch, |p.sent|)
      requires p.nextSeq == |p.sent| + |p.batch|
      modifies this, clock, cell, task`broken, task`aborted, ids, ids.bits
      ensures clock.now >= old(clock.now) && Valid() && p.batch == [] && done != Some(Panicked)
      ensures done.None? ==> AtRest() && p.nextSlotK == old(p.nextSlotK)
      ensures done == Some(Finished) ==> p.recorded == |p.sent|
      ensures done == Some(Finished) || done == Some(WriteFailed) ==> p.nextSlotK == Own(cfg, connId)
      ensures done != Some(WriteFailed) || cfg.qos == 1 ==> c.stalled == old(c.stalled)
      ensures old(task.broken) || done == Some(WriteFailed) <==> task.broken
      ensures old(task.aborted) || done == Some(Aborted) <==> task.aborted
    {
      var outcome := SendBatch(bytes);
      match outcome
      case Sent => return None;
      case WindowEnded =>
        DropBatch();
        return Some(Finished);
      case Failed =>
        GiveUp(AfterBrokenWrite);
        return Some(WriteFailed);
      case Cut => return Some(Aborted);
    }

    /** One pass of the pacer after its wait; `None` to go on. */
    method PacerPass() returns (done: Option<PacerResult>)
      requires AtRest() && cfg.origin <= clock.now
      requires p.nextSlotK < Own(cfg, connId) && Due(cfg, connId, p.nextSlotK) <= clock.now
      modifies this, clock, cell, task`broken, task`aborted, ids, ids.bits
      ensures clock.now >= old(clock.now)
      ensures done == Some(Panicked) ==> !DueTimesFit(cfg.connections, cfg.rate, cfg.origin, cfg.window)
      ensures done != Some(Panicked) ==> Valid() && p.batch == []
      ensures done.None? ==> AtRest() && p.nextSlotK > old(p.nextSlotK)
      ensures done == Some(Finished) ==> p.recorded == |p.sent|
      ensures done == Some(Finished) || done == Some(WriteFailed) ==> p.nextSlotK == Own(cfg, connId)
      ensures done != Some(WriteFailed) || cfg.qos == 1 ==> c.stalled == old(c.stalled)
      ensures old(task.broken) || done == Some(WriteFailed) <==> task.broken
      ensures old(task.aborted) || done == Some(Aborted) <==> task.aborted
    {
      var panicked := CollectBatch();
      if panicked {
        return Some(Panicked);
      }
      if p.batch == [] {
        return None;
      }
      OwnIsScheduled(cfg, connId, p.nextSlotK);
      var bytes := EncodePending();
      done := SendOrDrop(bytes);
    }

    /** Without a reading at the window end, a broken write or a refused allocation, every slot is sent. */
    lemma WithoutCause()
      requires Valid() && p.batch == [] && p.nextSlotK == Own(cfg, connId) && !task.broken
      ensures clock.now < cfg.window.endNs && ids.refusals == 0 ==> c.missed == 0 && p.sent == Run(0, Own(cfg, connId))
    {
      NothingMissed(cfg, connId, p, c, ids.used, submitted, clock.now, ids.refusals);
    }

    /**
      `latency_pacer`: on every exit but a panic or an abort each slot of the connection is offered or
      missed, exactly once, whatever the clock, the acknowledgements and the writes do. A slot is missed
      only for a cause that did happen; without one, every slot is sent.
      */
    method RunPacer() returns (result: PacerResult)
      requires Valid() && p == START && c.stalled == 0 && !task.broken && !task.aborted
      modifies this, clock, cell, task`broken, task`aborted, ids, ids.bits
      ensures result.Finished? || result.WriteFailed? ==> Accounted()
      ensures result.Finished? ==> p.recorded == |p.sent|
      ensures result.Aborted? ==> Valid() && p.batch == []
      ensures !result.WriteFailed? || cfg.qos == 1 ==> c.stalled == 0
      ensures result.Panicked? ==> !DueTimesFit(cfg.connections, cfg.rate, cfg.origin, cfg.window)
      ensures (result.WriteFailed? <==> task.broken) && (result.Aborted? <==> task.aborted)
      ensures result.Finished? && clock.now < cfg.window.endNs && ids.refusals == 0 ==>
                c.missed == 0 && p.sent == Run(0, Own(cfg, connId))
    {
      while true
        invariant AtRest() && c.stalled == 0 && !task.broken && !task.aborted
        decreases Own(cfg, connId) - p.nextSlotK
      {
        OwnIsScheduled(cfg, connId, p.nextSlotK);
        ComputedDue(cfg, connId, p.nextSlotK);
        var computed := SlotDue(connId, p.nextSlotK, cfg.connections, cfg.rate, cfg.origin);
        if computed.None? {
          return Panicked;
        }
        if computed.value >= SlotGridEnd(cfg.window) {
          WithoutCause();
          return Finished;
        }
        var cut := Wait();
        if cut {
          return Aborted;
        }
        WaitUntil(computed.value);
        var now := Now();
        if now >= cfg.window.endNs {
          GiveUp(AtWindowEnd(now));
          return Finished;
        }
        var done := PacerPass();
        if done.Some? {
          if done.value.Finished? { WithoutCause(); }
          return done.value;
        }
      }
    }

    // -------------------------------------------------------------- teardown

    /**
      `latency_teardown`: drain to the deadline, stop the reader, count what is left, close the socket.
      With QoS 1 every publish offered is then acked or stalled; an abort may leave some that are neither.
      */
    method Teardown() returns (aborted: bool)
      requires Valid() && (cfg.qos == 1 ==> c.stalled == 0)
      modifies this`c, this`submitted, task`aborted, ids, ids.bits
      ensures Valid() && (cfg.qos == 1 ==> c.acked + c.stalled <= c.offered)
      ensures cfg.qos == 1 && !aborted ==> c.offered == c.acked + c.stalled
      ensures cfg.qos != 1 ==> c.stalled == old(c.stalled) && c.acked == 0
      ensures ReaderOnly(old(c), c.(stalled := old(c).stalled))
      ensures task.aborted == (old(task.aborted) || aborted) && ids.refusals == old(ids.refusals)
    {
      ReaderSteps();
      if cfg.qos == 1 {
        aborted := Wait();
        if aborted {
          return;
        }
        var timedOut: bool := *;
        if timedOut || c.inFlight > 0 {
          CountErrors(c.protocolErrors, c.stalled + c.inFlight);
          aborted := Wait();
          return;
        }
      }
      ReaderSteps();
      aborted := Wait();
    }
  }

}
