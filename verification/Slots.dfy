/**
  The open-loop slot grid. Global slot `j` falls due `floor(j * 1e9 / rate)` nanoseconds after the
  origin; slots are dealt round-robin, so connection `c` of `n` owns the slots `c + k * n`.
  `None` stands for a panic of the source's checked conversions.
  */
module Slots {
  import opened Arith

  datatype Window = Window(startNs: u64, endNs: u64) {
    predicate Contains(ns: nat) {
      startNs <= ns < endNs
    }

    function StartSec(): nat {
      startNs / SECOND
    }

    function EndSec(): nat {
      endNs / SECOND
    }
  }

  const SLOT_GRID_END_LEAD_NS: nat := 10_000_000

  /** End of the slot grid: the window end less the lead, never before the window start. */
  function SlotGridEnd(w: Window): (e: u64)
  {
    Max(SatSub(w.endNs, SLOT_GRID_END_LEAD_NS), w.startNs)
  }

  /** Global slots from the origin to the grid end. */
  function ScheduledSlots(rate: u64, origin: u64, w: Window): nat {
    DivCeil(Sat128(SatSub(SlotGridEnd(w), origin) * rate), SECOND)
  }

  /** Slots of the whole grid and slots due inside the window. */
  function SlotCounts(rate: u64, origin: u64, w: Window): (r: Option<(nat, nat)>)
  {
    var scheduled := ScheduledSlots(rate, origin, w);
    var before := DivCeil(Sat128(SatSub(w.startNs, origin) * rate), SECOND);
    if scheduled > U64_MAX || before > U64_MAX || before > scheduled then None
    else Some((scheduled, scheduled - before))
  }

  /** Nanoseconds from the origin to slot `j`. */
  function SlotOffset(j: nat, rate: nat): nat
    requires rate >= 1
  {
    j * SECOND / rate
  }

  function SlotIndex(connId: nat, k: nat, connections: nat): nat {
    connId + k * connections
  }

  /** Due time of the `k`-th slot of a connection. */
  function SlotDue(connId: u32, k: u64, connections: u32, rate: u64, origin: u64): (due: Option<u64>)
    requires rate >= 1
  {
    var offset := Sat128(SlotIndex(connId, k, connections) * SECOND) / rate;
    if offset > U64_MAX then None else Some(Sat64(origin + offset))
  }

  /** Slots of one connection below a global slot bound. */
  function OwnSlotCount(connId: u32, connections: u32, bound: nat): nat
    requires connections >= 1
  {
    DivCeil(SatSub(bound, connId), connections)
  }

  /** Global slots whose due time has passed `elapsed` nanoseconds after the origin. */
  function PastDueSlots(elapsed: nat, rate: u64): nat {
    DivCeil(Sat128(Sat128(elapsed + 1) * rate), SECOND)
  }

  // ---------------------------------------------------------------- inversion of the grid

  /** A slot lies before `limit` exactly when its index lies below the ceiling count. */
  lemma OffsetInversion(j: nat, limit: nat, rate: nat)
    requires rate >= 1
    ensures SlotOffset(j, rate) < limit <==> j < DivCeil(limit * rate, SECOND)
  {
    FloorBelow(j * SECOND, rate, limit);
    BelowCeil(limit * rate, SECOND, j);
  }

  /** No `u128` product of two `u64` values saturates. */
  lemma ProductFits(a: nat, b: nat)
    requires a <= U64_MAX + 1 && b <= U64_MAX
    ensures Sat128(a * b) == a * b
  {
    MulBound(a, b, U64_MAX + 1, U64_MAX);
  }

  /** The `u128` steps of `slot_due_ns` never saturate. */
  lemma SlotIndexFits(connId: u32, k: u64, connections: u32)
    ensures Sat128(SlotIndex(connId, k, connections) * SECOND) == SlotIndex(connId, k, connections) * SECOND
  {
    MulBound(k, connections, U64_MAX, U32_MAX);
  }

  lemma SlotDueIsOffset(connId: u32, k: u64, connections: u32, rate: u64, origin: u64)
    requires rate >= 1
    ensures var offset := SlotOffset(SlotIndex(connId, k, connections), rate);
            SlotDue(connId, k, connections, rate, origin)
            == if offset > U64_MAX then None else Some(Sat64(origin + offset))
  {
    SlotIndexFits(connId, k, connections);
  }

  /** A slot is due before the grid end exactly when its index is below the scheduled count. */
  lemma GridInversion(j: nat, rate: u64, origin: u64, w: Window)
    requires rate >= 1
    ensures origin + SlotOffset(j, rate) < SlotGridEnd(w) <==> j < ScheduledSlots(rate, origin, w)
    ensures j < ScheduledSlots(rate, origin, w) <==>
              var due := origin + j * SECOND / rate; due < w.startNs || due + 10_000_000 < w.endNs
  {
    var span := SatSub(SlotGridEnd(w), origin);
    ProductFits(span, rate);
    OffsetInversion(j, span, rate);
  }

  /** A slot is due by `elapsed` exactly when its index is below the past-due count. */
  lemma PastDueInversion(j: nat, elapsed: u64, rate: u64)
    requires rate >= 1
    ensures SlotOffset(j, rate) <= elapsed <==> j < PastDueSlots(elapsed, rate)
  {
    ProductFits(elapsed + 1, rate);
    OffsetInversion(j, elapsed + 1, rate);
  }

  lemma OffsetMonotone(i: nat, j: nat, rate: nat)
    requires rate >= 1 && i <= j
    ensures SlotOffset(i, rate) <= SlotOffset(j, rate)
  {
    var o := SlotOffset(j, rate) + 1;
    FloorBelow(j * SECOND, rate, o);
    FloorBelow(i * SECOND, rate, o);
  }

  // ---------------------------------------------------------------- counting

  predicate Between(lo: nat, j: nat, hi: nat) {
    lo <= j < hi
  }

  ghost function Range(lo: nat, hi: nat): set<nat> {
    set j: nat | j < hi && Between(lo, j, hi)
  }

  /** The counts literal counting gives: slots due before the grid end, and those of them due in the window. */
  ghost predicate Literal(rate: u64, origin: u64, w: Window, scheduled: nat, inWindow: nat)
    requires rate >= 1
  {
    && scheduled == |set j: nat | j < scheduled && origin + SlotOffset(j, rate) < SlotGridEnd(w)|
    && (forall j: nat :: origin + SlotOffset(j, rate) < SlotGridEnd(w) ==> j < scheduled)
    && inWindow == |set j: nat | j < scheduled && w.startNs <= origin + SlotOffset(j, rate) < SlotGridEnd(w)|
  }

  /**
    `slot_counts` never underflows, panics exactly when the schedule leaves `u64`, and returns the
    numbers literal counting gives; at rate 0, where no slot falls due, it returns none.
    */
  lemma SlotCountsAreLiteral(rate: u64, origin: u64, w: Window)
    ensures SlotCounts(rate, origin, w).Some? <==> ScheduledSlots(rate, origin, w) <= U64_MAX
    ensures rate == 0 ==> SlotCounts(rate, origin, w) == Some((0, 0))
    ensures rate >= 1 && SlotCounts(rate, origin, w).Some? ==>
              Literal(rate, origin, w, SlotCounts(rate, origin, w).value.0, SlotCounts(rate, origin, w).value.1)
  {
    if rate >= 1 { PositiveRateCounts(rate, origin, w); }
  }

  /** Two thresholds on the slot index decide which slots are scheduled and which are in the window. */
  lemma ThresholdsAreLiteral(rate: u64, origin: u64, w: Window, before: nat, scheduled: nat)
    requires rate >= 1 && before <= scheduled
    requires forall j: nat :: origin + SlotOffset(j, rate) < SlotGridEnd(w) <==> j < scheduled
    requires forall j: nat :: origin + SlotOffset(j, rate) < w.startNs <==> j < before
    ensures Literal(rate, origin, w, scheduled, scheduled - before)
  {
    assert (set j: nat | j < scheduled && origin + SlotOffset(j, rate) < SlotGridEnd(w)) == Range(0, scheduled);
    IntervalSize(0, scheduled, Range(0, scheduled));
    assert (set j: nat | j < scheduled && w.startNs <= origin + SlotOffset(j, rate) < SlotGridEnd(w))
        == Range(before, scheduled);
    IntervalSize(before, scheduled, Range(before, scheduled));
  }

  lemma PositiveRateCounts(rate: u64, origin: u64, w: Window)
    requires rate >= 1
    ensures SlotCounts(rate, origin, w).Some? <==> ScheduledSlots(rate, origin, w) <= U64_MAX
    ensures SlotCounts(rate, origin, w).Some? ==>
              Literal(rate, origin, w, SlotCounts(rate, origin, w).value.0, SlotCounts(rate, origin, w).value.1)
  {
    var scheduled := ScheduledSlots(rate, origin, w);
    var lead := SatSub(w.startNs, origin);
    var before := DivCeil(Sat128(lead * rate), SECOND);
    ProductFits(lead, rate);
    forall j: nat ensures origin + SlotOffset(j, rate) < SlotGridEnd(w) <==> j < scheduled {
      GridInversion(j, rate, origin, w);
    }
    forall j: nat ensures origin + SlotOffset(j, rate) < w.startNs <==> j < before {
      OffsetInversion(j, lead, rate);
    }
    assert before <= scheduled by {
      GridInversion(scheduled, rate, origin, w);
      OffsetInversion(scheduled, lead, rate);
    }
    ThresholdsAreLiteral(rate, origin, w, before, scheduled);
  }

  /** A connection owns slot `k` below the bound exactly when `k` is below its own count. */
  lemma OwnInversion(connId: u32, connections: u32, bound: nat, k: nat)
    requires connections >= 1
    ensures k < OwnSlotCount(connId, connections, bound) <==> SlotIndex(connId, k, connections) < bound
  {
    BelowCeil(SatSub(bound, connId), connections, k);
  }

  function SumOwn(n: nat, connections: u32, bound: nat): nat
    requires connections >= 1 && n <= connections
  {
    if n == 0 then 0 else SumOwn(n - 1, connections, bound) + OwnSlotCount(n - 1, connections, bound)
  }

  /** The bound's own slot is the connection's next one. */
  lemma OwnStepHit(connId: u32, connections: u32, bound: nat)
    requires connId < connections && bound % connections == connId
    ensures OwnSlotCount(connId, connections, bound) == bound / connections
    ensures OwnSlotCount(connId, connections, bound + 1) == bound / connections + 1
  {
    var q := bound / connections;
    assert bound == q * connections + connId;
    assert (q + 1) * connections == q * connections + connections;
    OwnInversion(connId, connections, bound, q);
    OwnInversion(connId, connections, bound + 1, q);
    OwnInversion(connId, connections, bound + 1, q + 1);
    if q > 0 {
      assert (q - 1) * connections == q * connections - connections;
      OwnInversion(connId, connections, bound, q - 1);
    }
  }

  lemma OwnStepMiss(connId: u32, connections: u32, bound: nat)
    requires connId < connections && bound % connections != connId
    ensures OwnSlotCount(connId, connections, bound + 1) == OwnSlotCount(connId, connections, bound)
  {
    var a := OwnSlotCount(connId, connections, bound);
    var b := OwnSlotCount(connId, connections, bound + 1);
    OwnInversion(connId, connections, bound, a);
    OwnInversion(connId, connections, bound + 1, a);
    OwnInversion(connId, connections, bound, b);
    OwnInversion(connId, connections, bound + 1, b);
    RemainderOf(bound, connections, a, connId);
  }

  /** One more global slot goes to exactly one connection. */
  lemma OwnStep(connId: u32, connections: u32, bound: nat)
    requires connId < connections
    ensures OwnSlotCount(connId, connections, bound + 1)
         == OwnSlotCount(connId, connections, bound) + (if bound % connections == connId then 1 else 0)
  {
    if bound % connections == connId {
      OwnStepHit(connId, connections, bound);
    } else {
      OwnStepMiss(connId, connections, bound);
    }
  }

  lemma {:induction false} SumOwnStep(n: nat, connections: u32, bound: nat)
    requires connections >= 1 && n <= connections
    ensures SumOwn(n, connections, bound + 1)
         == SumOwn(n, connections, bound) + (if bound % connections < n then 1 else 0)
  {
    if n > 0 {
      SumOwnStep(n - 1, connections, bound);
      OwnStep(n - 1, connections, bound);
    }
  }

  lemma {:induction false} SumOwnZero(n: nat, connections: u32)
    requires connections >= 1 && n <= connections
    ensures SumOwn(n, connections, 0) == 0
  {
    if n > 0 { SumOwnZero(n - 1, connections); }
  }

  /** The per-connection counts share out any global bound exactly. */
  lemma {:induction false} OwnCountsPartition(connections: u32, bound: nat)
    requires connections >= 1
    ensures SumOwn(connections, connections, bound) == bound
  {
    if bound == 0 {
      SumOwnZero(connections, connections);
    } else {
      OwnCountsPartition(connections, bound - 1);
      SumOwnStep(connections, connections, bound - 1);
    }
  }

  // ---------------------------------------------------------------- the due-time conversion

  /** No connection's pacer evaluates a due time whose conversion panics. */
  ghost predicate DueTimesFit(connections: u32, rate: u64, origin: u64, w: Window)
    requires rate >= 1 && connections >= 1
  {
    forall c: nat, k: nat | c < connections && k <= OwnSlotCount(c, connections, ScheduledSlots(rate, origin, w)) ::
      SlotOffset(SlotIndex(c, k, connections), rate) <= U64_MAX
  }

  /** The slot just past a connection's last lies among the first `connections` unscheduled ones. */
  lemma FirstUnscheduled(connId: u32, connections: u32, bound: nat)
    requires connId < connections
    ensures var j := SlotIndex(connId, OwnSlotCount(connId, connections, bound), connections);
            bound <= j < bound + connections
  {
    var own := OwnSlotCount(connId, connections, bound);
    OwnInversion(connId, connections, bound, own);
    if own > 0 {
      OwnInversion(connId, connections, bound, own - 1);
      assert own * connections == (own - 1) * connections + connections;
    }
  }

  /** Connection `bound - 1 mod n` stops exactly at slot `bound + n - 1`. */
  lemma LastUnscheduled(connections: u32, bound: nat)
    requires connections >= 1
    ensures exists c: nat, k: nat :: c < connections && k <= OwnSlotCount(c, connections, bound)
              && SlotIndex(c, k, connections) == bound + connections - 1
  {
    var n := connections;
    var last := bound + n - 1;
    var c := last % n;
    var k := last / n;
    assert last == k * n + c;
    assert SlotIndex(c, k, n) == last;
    if k > 0 {
      OwnInversion(c, n, bound, k - 1);
      assert (k - 1) * n == k * n - n;
    }
    assert k <= OwnSlotCount(c, n, bound);
  }

  /** Due times convert without a panic exactly when one slot, known before the run, does. */
  lemma DueTimesFitExactly(connections: u32, rate: u64, origin: u64, w: Window)
    requires rate >= 1 && connections >= 1
    ensures DueTimesFit(connections, rate, origin, w)
       <==> SlotOffset(ScheduledSlots(rate, origin, w) + connections - 1, rate) <= U64_MAX
  {
    var bound := ScheduledSlots(rate, origin, w);
    var last := bound + connections - 1;
    if SlotOffset(last, rate) <= U64_MAX {
      forall c: nat, k: nat | c < connections && k <= OwnSlotCount(c, connections, bound)
        ensures SlotOffset(SlotIndex(c, k, connections), rate) <= U64_MAX
      {
        var own := OwnSlotCount(c, connections, bound);
        FirstUnscheduled(c, connections, bound);
        MulBound(k, connections, own, connections);
        OffsetMonotone(SlotIndex(c, k, connections), last, rate);
      }
    } else {
      LastUnscheduled(connections, bound);
    }
  }
}
