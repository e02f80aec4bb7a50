/**
  The open-loop pacer of one connection: it waits for its slots, batches those already due,
  allocates packet ids, gates each write on the window end, and counts what it could not send by
  closed forms. The clock is any nondecreasing reading, a write may end any way at any time, and
  acknowledgements arrive at any point where the tasks can interleave.
  */
module Pacer {
  import opened Arith
  import opened Slots
  import Wire

  const BATCH: nat := 64
  const CONNECTIONS_MAX: nat := 1213

  datatype GenConfig = GenConfig(rate: u64, qos: nat, connections: u32, origin: u64, window: Window)

  /** `validate` of a latency configuration. */
  predicate Accepts(cfg: GenConfig) {
    && cfg.qos <= 1
    && 1 <= cfg.connections <= CONNECTIONS_MAX
    && cfg.rate >= 1
    && ScheduledSlots(cfg.rate, cfg.origin, cfg.window) <= U64_MAX
    && cfg.window.startNs < cfg.window.endNs
    && cfg.origin <= cfg.window.startNs
  }

  function Scheduled(cfg: GenConfig): nat {
    ScheduledSlots(cfg.rate, cfg.origin, cfg.window)
  }

  /** Slots one connection owns. */
  function Own(cfg: GenConfig, connId: u32): nat
    requires cfg.connections >= 1
  {
    OwnSlotCount(connId, cfg.connections, Scheduled(cfg))
  }

  /** Exact due time of the `k`-th slot of a connection. */
  function Due(cfg: GenConfig, connId: nat, k: nat): nat
    requires cfg.rate >= 1
  {
    cfg.origin + SlotOffset(SlotIndex(connId, k, cfg.connections), cfg.rate)
  }

  // ---------------------------------------------------------------- slot facts

  lemma OwnIsScheduled(cfg: GenConfig, connId: u32, k: nat)
    requires Accepts(cfg) && connId < cfg.connections
    ensures k < Own(cfg, connId) <==> Due(cfg, connId, k) < SlotGridEnd(cfg.window)
    ensures Own(cfg, connId) <= Scheduled(cfg) <= U64_MAX
  {
    OwnInversion(connId, cfg.connections, Scheduled(cfg), k);
    GridInversion(SlotIndex(connId, k, cfg.connections), cfg.rate, cfg.origin, cfg.window);
    OwnInversion(connId, cfg.connections, Scheduled(cfg), Scheduled(cfg));
    MulStep(cfg.connections, Scheduled(cfg));
  }

  /** The computed due time is exact on scheduled slots, past the grid end after them, or a panic. */
  lemma ComputedDue(cfg: GenConfig, connId: u32, k: u64)
    requires Accepts(cfg) && connId < cfg.connections && k <= Own(cfg, connId)
    ensures var due := SlotDue(connId, k, cfg.connections, cfg.rate, cfg.origin);
            && (k < Own(cfg, connId) ==> due == Some(Due(cfg, connId, k)) && due.value < SlotGridEnd(cfg.window))
            && (k == Own(cfg, connId) && due.Some? ==> due.value >= SlotGridEnd(cfg.window))
            && (due.None? ==> !DueTimesFit(cfg.connections, cfg.rate, cfg.origin, cfg.window))
  {
    SlotDueIsOffset(connId, k, cfg.connections, cfg.rate, cfg.origin);
    OwnIsScheduled(cfg, connId, k);
  }

  /** The conversion can panic on a configuration the generator accepts: two connections, 1 slot/s over 584 years. */
  lemma DueTimeCanPanic() returns (cfg: GenConfig)
    ensures Accepts(cfg) && !DueTimesFit(cfg.connections, cfg.rate, cfg.origin, cfg.window)
  {
    cfg := GenConfig(1, 1, 2, SECOND, Window(SECOND, U64_MAX));
    DueTimesFitExactly(2, 1, SECOND, cfg.window);
  }

  /** The slots of a connection that have fallen due by `now`, never past its own. */
  function DueBound(cfg: GenConfig, connId: u32, now: u64): nat
    requires cfg.connections >= 1
  {
    Min(OwnSlotCount(connId, cfg.connections, PastDueSlots(SatSub(now, cfg.origin), cfg.rate)), Own(cfg, connId))
  }

  /** The closed form of `skip_past_due_missed` counts exactly the scheduled slots due by `now`. */
  lemma DueBoundIsExact(cfg: GenConfig, connId: u32, now: u64, k: nat)
    requires Accepts(cfg) && connId < cfg.connections && cfg.origin <= now
    ensures k < DueBound(cfg, connId, now) <==> k < Own(cfg, connId) && Due(cfg, connId, k) <= now
  {
    var past := PastDueSlots(now - cfg.origin, cfg.rate);
    OwnInversion(connId, cfg.connections, past, k);
    PastDueInversion(SlotIndex(connId, k, cfg.connections), now - cfg.origin, cfg.rate);
  }

  // ---------------------------------------------------------------- books

  ghost predicate Below(s: seq<nat>, bound: nat) {
    forall i | 0 <= i < |s| :: s[i] < bound
  }

  /** `n` consecutive slots from `first`. */
  function Run(first: nat, n: nat): (s: seq<nat>)
    ensures |s| == n && forall i | 0 <= i < n :: s[i] == first + i
  {
    if n == 0 then [] else Run(first, n - 1) + [first + n - 1]
  }

  /** An increasing list of all the slots below a bound is the run of them. */
  lemma {:induction false} FullIsRun(s: seq<nat>, n: nat)
    requires Increasing(s) && Below(s, n) && |s| == n
    ensures s == Run(0, n)
  {
    if n > 0 {
      var before := s[..n - 1];
      assert Below(before, n - 1) by {
        forall i | 0 <= i < |before| ensures before[i] < n - 1 { assert s[i] < s[n - 1]; }
      }
      FullIsRun(before, n - 1);
      assert s == before + [s[n - 1]];
      IncreasingAtLeast(s, n - 1);
    }
  }

  lemma {:induction false} IncreasingAtLeast(s: seq<nat>, i: nat)
    requires Increasing(s) && i < |s|
    ensures s[i] >= i
  {
    if i > 0 { IncreasingAtLeast(s, i - 1); }
  }

  function InWindow(cfg: GenConfig, connId: nat, k: nat): bool
    requires cfg.rate >= 1
  {
    cfg.window.Contains(Due(cfg, connId, k))
  }

  /** How many of `slots` are due inside the window. */
  function CountInWindow(cfg: GenConfig, connId: nat, slots: seq<nat>): nat
    requires cfg.rate >= 1
  {
    if slots == [] then 0
    else CountInWindow(cfg, connId, slots[..|slots| - 1])
         + (if InWindow(cfg, connId, slots[|slots| - 1]) then 1 else 0)
  }

  lemma {:induction false} CountInWindowConcat(cfg: GenConfig, connId: nat, a: seq<nat>, b: seq<nat>)
    requires cfg.rate >= 1
    ensures CountInWindow(cfg, connId, a + b) == CountInWindow(cfg, connId, a) + CountInWindow(cfg, connId, b)
    decreases |b|
  {
    if b == [] {
      assert a + b == a;
    } else {
      var last := |b| - 1;
      assert (a + b)[..|a + b| - 1] == a + b[..last];
      CountInWindowConcat(cfg, connId, a, b[..last]);
    }
  }

  /** A batch holds consecutive slots with their exact due times. */
  ghost predicate BatchIs(cfg: GenConfig, connId: nat, batch: seq<Wire.Slot>, first: nat)
    requires cfg.rate >= 1
  {
    forall i | 0 <= i < |batch| :: batch[i].dueNs == Due(cfg, connId, first + i)
  }

  /** Everything before `next` is offered, missed, or in the batch, and no slot is twice offered. */
  ghost predicate SlotsAccounted(sent: seq<nat>, missed: nat, batch: nat, first: nat, next: nat, own: nat) {
    && |sent| + missed + batch == next
    && Increasing(sent) && Below(sent, first)
    && first + batch <= next <= own
  }

  lemma SentBatch(sent: seq<nat>, missed: nat, batch: nat, first: nat, next: nat, own: nat)
    requires SlotsAccounted(sent, missed, batch, first, next, own)
    ensures SlotsAccounted(sent + Run(first, batch), missed, 0, next, next, own)
  {
  }

  // ---------------------------------------------------------------- environment

  /** `CLOCK_MONOTONIC`: any reading at or after the previous one. */
  class Clock {
    var now: u64

    constructor ()
    {
      var t: u64 := *;
      now := t;
    }

    method Read() returns (t: u64)
      modifies this
      ensures t == now && old(now) <= now
    {
      t :| now <= t <= U64_MAX;
      now := t;
    }

    /** `pacer_wait`: the clock has reached `due`. */
    method WaitUntil(due: u64)
      modifies this
      ensures due <= now && old(now) <= now
    {
      var t: u64 :| now <= t <= U64_MAX && due <= t;
      now := t;
    }
  }

  /** How `open_session` ends: with a session, without one, or with its task aborted. */
  datatype Opening = Opened | NoSession(byReply: bool) | OpenAborted

  /** How a `write_all` ends: complete, with an error or a timeout, or with its task aborted. */
  datatype WriteOutcome = Written | Broken | Interrupted

  /** What the peer and the runtime do to the task of a connection, which may be anything; the flags remember it. */
  class Task {
    var refused: bool    // no session came about
    var broken: bool     // a write failed or timed out
    var aborted: bool    // the task was aborted where it waited

    constructor ()
      ensures !refused && !broken && !aborted
    {
      refused, broken, aborted := false, false, false;
    }

    method Open() returns (o: Opening)
      modifies this
      ensures refused == (old(refused) || o.NoSession?) && broken == old(broken)
      ensures aborted == (old(aborted) || o.OpenAborted?)
    {
      var byReply: bool := *;
      if * {
        o := Opened;
      } else if * {
        o := NoSession(byReply);
        refused := true;
      } else {
        o := OpenAborted;
        aborted := true;
      }
    }

    method WriteAll() returns (o: WriteOutcome)
      modifies this`broken, this`aborted
      ensures broken == (old(broken) || o.Broken?)
      ensures aborted == (old(aborted) || o.Interrupted?)
    {
      if * {
        o := Written;
      } else if * {
        o := Broken;
        broken := true;
      } else {
        o := Interrupted;
        aborted := true;
      }
    }

    /** A wait, at which the task may be aborted. */
    method Wait() returns (cut: bool)
      modifies this`aborted
      ensures aborted == (old(aborted) || cut)
    {
      cut := *;
      aborted := aborted || cut;
    }
  }

  /**
    The `last_write_start_ns` cell all connections share; `passed` is every start ever handed to it.
    A gate hands over only starts inside `[originNs, endNs)`.
    */
  class WriteStartCell {
    const originNs: u64
    const endNs: u64
    var value: u64
    ghost var passed: set<u64>

    /** The cell is the greatest start passed, or 0 while there is none. */
    ghost predicate Valid()
      reads this
    {
      && (value == 0 || value in passed)
      && forall v | v in passed :: v <= value && originNs <= v < endNs
    }

    constructor (originNs: u64, endNs: u64)
      ensures Valid() && value == 0 && passed == {} && this.originNs == originNs && this.endNs == endNs
    {
      this.originNs, this.endNs := originNs, endNs;
      value := 0;
      passed := {};
    }

    /** Another connection completes an update. */
    method Interfere()
      requires Valid()
      modifies this
      ensures Valid() && old(value) <= value && old(passed) <= passed
    {
      var v: u64 := *;
      if originNs <= v < endNs {
        passed := passed + {v};
        if v > value {
          value := v;
        }
      }
    }

    /** `update_last_write_start`: a compare-and-swap loop that other connections interrupt. */
    method Update(start: u64)
      requires Valid() && originNs <= start < endNs
      modifies this
      ensures Valid() && old(value) <= value && start <= value && old(passed) + {start} <= passed
    {
      var current := value;
      Interfere();
      while start > current
        invariant Valid() && old(value) <= value && old(passed) <= passed && current <= value
        decreases start - current
      {
        var actual := value;
        if actual == current {
          value := start;
          passed := passed + {start};
          return;
        }
        current := actual;
        Interfere();
      }
      passed := passed + {start};
    }
  }
}
