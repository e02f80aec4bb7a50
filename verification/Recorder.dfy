/**
  The delivery recorder: one shard per connection, each with a chunked duplicate bitset, a
  per-second timeline that grows in both directions, and a latency histogram.
  */
module Recorder {
  import opened Arith
  import opened Words
  import opened Slots
  import opened Histogram
  import opened Payload
  import opened Deliveries

  const SEQ_CHUNK_WORDS: nat := 8
  const SEQ_CHUNK_SEQS: nat := 512
  const ARM_ORIGIN_SKEW_MAX_NS: nat := 60_000_000_000
  const WINDOW_MAX_SPAN_NS: nat := 3_600_000_000_000

  // ---------------------------------------------------------------- the duplicate bitset

  type Chunk = words: seq<nat> | |words| == SEQ_CHUNK_WORDS && (forall i | 0 <= i < SEQ_CHUNK_WORDS :: IsWord(words[i]))
    witness [0, 0, 0, 0, 0, 0, 0, 0]

  const EMPTY_CHUNK: Chunk := [0, 0, 0, 0, 0, 0, 0, 0]

  function WordIn(seqNo: nat): (i: nat)
    ensures i < SEQ_CHUNK_WORDS
  {
    seqNo % SEQ_CHUNK_SEQS / WORD_BITS
  }

  function BitIn(seqNo: nat): (b: nat)
    ensures b < WORD_BITS
  {
    seqNo % SEQ_CHUNK_SEQS % WORD_BITS
  }

  predicate Marked(seen: map<nat, Chunk>, seqNo: nat) {
    seqNo / SEQ_CHUNK_SEQS in seen && Bit(seen[seqNo / SEQ_CHUNK_SEQS][WordIn(seqNo)], BitIn(seqNo))
  }

  lemma PlaceIsUnique(a: nat, b: nat)
    ensures a == b <==> a / SEQ_CHUNK_SEQS == b / SEQ_CHUNK_SEQS && WordIn(a) == WordIn(b) && BitIn(a) == BitIn(b)
  {
  }

  /** The bitset marks exactly the sequence numbers delivered. */
  ghost predicate SeenOk(seen: map<nat, Chunk>, log: seq<Delivery>) {
    forall s: nat {:trigger Marked(seen, s)} :: Marked(seen, s) <==> Has(log, s)
  }

  // ---------------------------------------------------------------- filing counts

  datatype Tally = Tally(delivered: nat, duplicates: nat, overRange: nat, anomalies: nat)

  ghost predicate TallyOk(t: Tally, w: Window, log: seq<Delivery>) {
    && t.delivered == Sat64(|Fresh(log)|)
    && t.duplicates == Sat64(|log| - |Fresh(log)|)
    && t.overRange == Sat64(CountFiled(Fresh(log), w, OverRange))
    && t.anomalies == Sat64(CountFiled(Fresh(log), w, Anomaly))
  }

  /** Every sample is in the histogram, at its own bucket, and nothing else is. */
  ghost predicate LatencyOk(h: Histogram, w: Window, ds: seq<Delivery>) {
    && WellFormed(h) && Total(h) == CountFiled(ds, w, Sample)
    && forall top: nat {:trigger CountAt(h, top)} :: CountAt(h, top) == CountSamplesAt(ds, w, top)
  }

  /** What filing one fresh delivery does to the counts. */
  function Filed(t: Tally, w: Window, d: Delivery): Tally {
    match File(d, w)
    case Anomaly => t.(anomalies := Sat64(t.anomalies + 1))
    case OverRange => t.(overRange := Sat64(t.overRange + 1))
    case _ => t
  }

  lemma FiledOk(t: Tally, w: Window, log: seq<Delivery>, d: Delivery)
    requires TallyOk(t, w, log) && !Has(log, d.seqNo)
    ensures TallyOk(Filed(t.(delivered := Sat64(t.delivered + 1)), w, d), w, log + [d])
  {
    FreshStep(log, d);
    var more := Fresh(log) + [d];
    assert more[..|more| - 1] == Fresh(log);
  }

  lemma DuplicateOk(t: Tally, w: Window, log: seq<Delivery>, d: Delivery)
    requires TallyOk(t, w, log) && Has(log, d.seqNo)
    ensures TallyOk(t.(duplicates := Sat64(t.duplicates + 1)), w, log + [d])
  {
    FreshStep(log, d);
  }

  function WithSample(h: Histogram, w: Window, d: Delivery): Histogram {
    if File(d, w) == Sample then Record(h, SampleOf(d)) else h
  }

  lemma SampleOk(h: Histogram, w: Window, ds: seq<Delivery>, d: Delivery)
    requires LatencyOk(h, w, ds)
    ensures LatencyOk(WithSample(h, w, d), w, ds + [d])
  {
    assert (ds + [d])[..|ds|] == ds;
    if File(d, w) == Sample {
      RecordCounts(h, SampleOf(d), 0);
      forall top: nat ensures CountAt(WithSample(h, w, d), top) == CountSamplesAt(ds + [d], w, top) {
        RecordCounts(h, SampleOf(d), top);
      }
    }
  }

  // ---------------------------------------------------------------- the timeline

  function Zeros(n: nat): (z: seq<nat>)
    ensures |z| == n && forall i | 0 <= i < n :: z[i] == 0
  {
    if n == 0 then [] else Zeros(n - 1) + [0]
  }

  ghost predicate ShardTimelineOk(origin: Option<nat>, counts: seq<nat>, ds: seq<Delivery>) {
    if origin.None? then counts == [] && ds == [] else TimelineOf(Timeline(origin.value, counts), ds)
  }

  /** One more delivery at `sec`, in a timeline that still covers everything it did. */
  ghost predicate Bumped(before: Timeline, after: Timeline, sec: nat) {
    && (forall s: nat :: BinAt(after, s) == Sat64(BinAt(before, s) + if s == sec then 1 else 0))
    && after.originSec <= before.originSec && before.originSec + |before.counts| <= after.originSec + |after.counts|
    && after.originSec <= sec < after.originSec + |after.counts|
  }

  lemma BumpedOk(before: Timeline, after: Timeline, ds: seq<Delivery>, d: Delivery)
    requires TimelineOf(before, ds) && Bumped(before, after, SecOf(d.nowNs))
    ensures TimelineOf(after, ds + [d])
  {
    var more := ds + [d];
    assert more[..|ds|] == ds;
    forall sec: nat ensures BinAt(after, sec) == Sat64(CountSec(more, sec)) {
      assert BinAt(before, sec) == Sat64(CountSec(ds, sec));
    }
  }

  lemma {:induction false} EmptyTimeline(origin: nat)
    ensures TimelineOf(Timeline(origin, []), [])
  {
  }

  lemma BinsAreSaturated(t: Timeline, ds: seq<Delivery>, i: nat)
    requires TimelineOf(t, ds) && i < |t.counts|
    ensures t.counts[i] <= U64_MAX
  {
    assert BinAt(t, t.originSec + i) == Sat64(CountSec(ds, t.originSec + i));
  }

  class Shard {
    var seen: map<nat, Chunk>
    var tally: Tally
    var timelineOriginSec: Option<nat>
    var timeline: seq<nat>
    var latency: Histogram
    ghost var log: seq<Delivery>  // every delivery routed here, in order

    ghost predicate Valid(w: Window)
      reads this
    {
      && SeenOk(seen, log)
      && TallyOk(tally, w, log)
      && ShardTimelineOk(timelineOriginSec, timeline, Fresh(log))
      && LatencyOk(latency, w, Fresh(log))
    }

    constructor (w: Window)
      ensures Valid(w) && log == []
    {
      seen := map[];
      tally := Tally(0, 0, 0, 0);
      timelineOriginSec, timeline := None, [];
      latency := [];
      log := [];
    }

    /** Marks `seqNo` and reports whether it was marked already. */
    method SetSeqBit(seqNo: u64) returns (was: bool)
      modifies this`seen
      ensures was == old(Marked(seen, seqNo))
      ensures forall s: nat :: Marked(seen, s) <==> s == seqNo || old(Marked(seen, s))
    {
      var chunk := seqNo / SEQ_CHUNK_SEQS;
      var idx := WordIn(seqNo);
      var bit := BitIn(seqNo);
      var words := if chunk in seen then seen[chunk] else EMPTY_CHUNK;
      ghost var before := seen;
      ZeroHasNoBits(bit);
      TestBit(words[idx], bit);
      if And(words[idx], Pow2(bit)) != 0 {
        return true;
      }
      SetBit(words[idx], bit);
      seen := seen[chunk := words[idx := Or(words[idx], Pow2(bit))]];
      forall s: nat ensures Marked(seen, s) <==> s == seqNo || Marked(before, s) {
        PlaceIsUnique(s, seqNo);
        ZeroHasNoBits(BitIn(s));
      }
      return false;
    }

    /** One delivery at `nowNs`: the timeline grows down or up to its second and counts it there. */
    method BumpTimeline(nowNs: u64, originSec: nat)
      requires forall i | 0 <= i < |timeline| :: timeline[i] <= U64_MAX
      requires timelineOriginSec.None? ==> timeline == []
      modifies this`timelineOriginSec, this`timeline
      ensures timelineOriginSec.Some?
      ensures Bumped(Timeline(if old(timelineOriginSec).Some? then old(timelineOriginSec).value else originSec,
                              old(timeline)),
                     Timeline(timelineOriginSec.value, timeline), SecOf(nowNs))
    {
      var nowSec := SecOf(nowNs);
      var base := if timelineOriginSec.Some? then timelineOriginSec.value else originSec;
      if nowSec < base {
        timeline := Zeros(base - nowSec) + timeline;
        base := nowSec;
      }
      timelineOriginSec := Some(base);
      var idx := nowSec - base;
      if |timeline| <= idx {
        timeline := timeline + Zeros(idx + 1 - |timeline|);
      }
      timeline := timeline[idx := Sat64(timeline[idx] + 1)];
    }

    /** One delivery routed to this shard, under its lock. */
    method RecordHere(d: Delivery, originSec: nat, w: Window)
      requires Valid(w)
      modifies this
      ensures Valid(w) && log == old(log) + [d]
    {
      FreshStep(log, d);
      var duplicate := SetSeqBit(d.seqNo);
      if duplicate {
        DuplicateOk(tally, w, log, d);
        tally := tally.(duplicates := Sat64(tally.duplicates + 1));
        log := log + [d];
        return;
      }
      CountFresh(d, originSec, w);
    }

    /** The rest of `record` for a delivery seen for the first time. */
    method CountFresh(d: Delivery, originSec: nat, w: Window)
      requires TallyOk(tally, w, log) && ShardTimelineOk(timelineOriginSec, timeline, Fresh(log))
      requires LatencyOk(latency, w, Fresh(log))
      requires !Has(log, d.seqNo)
      modifies this`tally, this`timelineOriginSec, this`timeline, this`latency, this`log
      ensures TallyOk(tally, w, log) && ShardTimelineOk(timelineOriginSec, timeline, Fresh(log))
      ensures LatencyOk(latency, w, Fresh(log))
      ensures log == old(log) + [d]
    {
      FreshStep(log, d);
      FiledOk(tally, w, log, d);
      SampleOk(latency, w, Fresh(log), d);
      tally := tally.(delivered := Sat64(tally.delivered + 1));
      ExtendTimeline(d, originSec);
      FileDelivery(d, w);
      log := log + [d];
      assert Fresh(log) == old(Fresh(log)) + [d];
    }

    /** A clock anomaly, an over-range latency or a sample; nothing outside the window. */
    method FileDelivery(d: Delivery, w: Window)
      modifies this`tally, this`latency
      ensures tally == Filed(old(tally), w, d) && latency == WithSample(old(latency), w, d)
      ensures d.nowNs < d.scheduledNs ==>
                tally == old(tally).(anomalies := Sat64(old(tally).anomalies + 1)) && latency == old(latency)
      ensures Timed(d, w) && d.nowNs > d.scheduledNs + LATENCY_MAX_NS ==>
                tally == old(tally).(overRange := Sat64(old(tally).overRange + 1)) && latency == old(latency)
      ensures Timed(d, w) && d.nowNs <= d.scheduledNs + LATENCY_MAX_NS ==>
                && tally == old(tally)
                && forall at: nat {:trigger CountAt(latency, at)} ::
                     CountAt(latency, at) == old(CountAt(latency, at)) + if at == LatencyBucket(d) then 1 else 0
      ensures d.scheduledNs <= d.nowNs && !Timed(d, w) ==> tally == old(tally) && latency == old(latency)
    {
      forall at: nat ensures CountAt(Add(latency, LatencyBucket(d), 1), at)
                          == CountAt(latency, at) + if at == LatencyBucket(d) then 1 else 0
      {
        AddedCounts(latency, LatencyBucket(d), 1, at);
      }
      if d.scheduledNs > d.nowNs {
        tally := tally.(anomalies := Sat64(tally.anomalies + 1));
      } else if w.Contains(d.scheduledNs) {
        var sample := d.nowNs - d.scheduledNs;
        if sample > LATENCY_MAX_NS {
          tally := tally.(overRange := Sat64(tally.overRange + 1));
        } else {
          latency := Record(latency, Max(sample, 1));
        }
      }
    }

    method ExtendTimeline(d: Delivery, originSec: nat)
      requires ShardTimelineOk(timelineOriginSec, timeline, Fresh(log))
      modifies this`timelineOriginSec, this`timeline
      ensures ShardTimelineOk(timelineOriginSec, timeline, Fresh(log) + [d])
    {
      ghost var base := if timelineOriginSec.Some? then timelineOriginSec.value else originSec;
      ghost var before := Timeline(base, timeline);
      EmptyTimeline(originSec);
      forall i | 0 <= i < |timeline| ensures timeline[i] <= U64_MAX { BinsAreSaturated(before, Fresh(log), i); }
      BumpTimeline(d.nowNs, originSec);
      BumpedOk(before, Timeline(timelineOriginSec.value, timeline), Fresh(log), d);
    }
  }

  // ---------------------------------------------------------------- merging shards

  /** The counts of `counts` added into `sum`, saturating, `offset` bins in. */
  method AddCounts(sum: seq<nat>, counts: seq<nat>, offset: nat) returns (r: seq<nat>)
    requires (forall i | 0 <= i < |sum| :: sum[i] <= U64_MAX) && forall i | 0 <= i < |counts| :: counts[i] <= U64_MAX
    ensures |r| == Max(|sum|, offset + |counts|)
    ensures forall i | 0 <= i < |r| ::
              r[i] == Sat64((if i < |sum| then sum[i] else 0)
                            + (if offset <= i < offset + |counts| then counts[i - offset] else 0))
  {
    r := if |sum| < offset + |counts| then sum + Zeros(offset + |counts| - |sum|) else sum;
    ghost var grown := r;
    for i := 0 to |counts|
      invariant |r| == |grown|
      invariant forall k | 0 <= k < |r| ::
                  r[k] == if offset <= k < offset + i then Sat64(grown[k] + counts[k - offset]) else grown[k]
    {
      r := r[offset + i := Sat64(r[offset + i] + counts[i])];
    }
  }

  lemma MergedBins(a: Timeline, da: seq<Delivery>, b: Timeline, db: seq<Delivery>, r: Timeline)
    requires TimelineOf(a, da) && TimelineOf(b, db) && r.originSec == a.originSec <= b.originSec
    requires var offset := b.originSec - a.originSec;
             && |r.counts| == Max(|a.counts|, offset + |b.counts|)
             && forall i | 0 <= i < |r.counts| :: r.counts[i]
                  == Sat64((if i < |a.counts| then a.counts[i] else 0)
                         + (if offset <= i < offset + |b.counts| then b.counts[i - offset] else 0))
    ensures TimelineOf(r, da + db)
  {
    forall sec: nat ensures BinAt(r, sec) == Sat64(CountSec(da + db, sec)) {
      CountsConcat(da, db, Window(0, 0), Sample, sec, 0);
      assert BinAt(a, sec) == Sat64(CountSec(da, sec));
      assert BinAt(b, sec) == Sat64(CountSec(db, sec));
    }
  }

  /** The parts merged so far hold exactly their deliveries. */
  ghost predicate PartsOk(parts: seq<Timeline>, dss: seq<seq<Delivery>>) {
    |parts| == |dss| && forall i | 0 <= i < |parts| :: TimelineOf(parts[i], dss[i])
  }

  function Concat(dss: seq<seq<Delivery>>): seq<Delivery> {
    if dss == [] then [] else Concat(dss[..|dss| - 1]) + dss[|dss| - 1]
  }

  /** Timelines of different origins merged into one that starts at the earliest. */
  method MergeTimelines(parts: seq<Timeline>, armedOriginSec: nat, ghost dss: seq<seq<Delivery>>) returns (t: Timeline)
    requires PartsOk(parts, dss)
    ensures TimelineOf(t, Concat(dss))
    ensures parts == [] ==> t == Timeline(armedOriginSec, [])
    ensures parts != [] ==> (exists i | 0 <= i < |parts| :: t.originSec == parts[i].originSec)
                            && forall i | 0 <= i < |parts| :: t.originSec <= parts[i].originSec
  {
    var origin := EarliestOrigin(parts, armedOriginSec);
    t := Timeline(origin, []);
    EmptyTimeline(origin);
    for n := 0 to |parts|
      invariant t.originSec == origin && TimelineOf(t, Concat(dss[..n])) && (n == 0 ==> t.counts == [])
    {
      forall i | 0 <= i < |t.counts| ensures t.counts[i] <= U64_MAX { BinsAreSaturated(t, Concat(dss[..n]), i); }
      forall i | 0 <= i < |parts[n].counts| ensures parts[n].counts[i] <= U64_MAX {
        BinsAreSaturated(parts[n], dss[n], i);
      }
      var counts := AddCounts(t.counts, parts[n].counts, parts[n].originSec - origin);
      MergedBins(t, Concat(dss[..n]), parts[n], dss[n], Timeline(origin, counts));
      assert dss[..n + 1][..n] == dss[..n];
      t := Timeline(origin, counts);
    }
    assert dss[..|parts|] == dss;
  }

  method EarliestOrigin(parts: seq<Timeline>, fallback: nat) returns (origin: nat)
    ensures parts == [] ==> origin == fallback
    ensures parts != [] ==> exists i | 0 <= i < |parts| :: origin == parts[i].originSec
    ensures forall i | 0 <= i < |parts| :: origin <= parts[i].originSec
  {
    if parts == [] {
      return fallback;
    }
    origin := parts[0].originSec;
    for n := 1 to |parts|
      invariant exists i | 0 <= i < n :: origin == parts[i].originSec
      invariant forall i | 0 <= i < n :: origin <= parts[i].originSec
    {
      if parts[n].originSec < origin {
        origin := parts[n].originSec;
      }
    }
  }

  // ---------------------------------------------------------------- the recorder

  datatype DeliveryReport = DeliveryReport(
    delivered: nat,
    duplicates: nat,
    foreignPayloads: nat,
    latencyOverRange: nat,
    clockAnomalies: nat,
    dropped: Option<nat>,
    timeline: Timeline,
    latency: Histogram)

  /** A recorded call that was not foreign: its connection and its delivery. */
  datatype Call = Call(conn: nat, d: Delivery)

  function Project(calls: seq<Call>, conn: nat): seq<Delivery> {
    if calls == [] then []
    else
      var before := Project(calls[..|calls| - 1], conn);
      if calls[|calls| - 1].conn == conn then before + [calls[|calls| - 1].d] else before
  }

  /** The deliveries of each of `n` connections. */
  function LogsOf(calls: seq<Call>, n: nat): (logs: seq<seq<Delivery>>)
    ensures |logs| == n
  {
    if n == 0 then [] else LogsOf(calls, n - 1) + [Project(calls, n - 1)]
  }

  lemma ProjectStep(calls: seq<Call>, call: Call, conn: nat)
    ensures Project(calls + [call], conn)
         == if call.conn == conn then Project(calls, conn) + [call.d] else Project(calls, conn)
  {
    assert (calls + [call])[..|calls|] == calls;
  }

  /** What a payload means to an armed recorder of `n` connections; `None` for a foreign one. */
  function CallOf(payload: seq<byte>, nowNs: u64, n: nat): Option<Call> {
    var stamp := DecodeStamp(payload);
    if stamp.None? || stamp.value.connId >= n then None
    else Some(Call(stamp.value.connId, Delivery(stamp.value.seqNo, stamp.value.scheduledNs, nowNs)))
  }

  /** The running totals of `report` after some shards. */
  datatype Totals = Totals(delivered: nat, duplicates: nat, overRange: nat, anomalies: nat, latency: Histogram)

  ghost predicate TotalsOk(t: Totals, w: Window, logs: seq<seq<Delivery>>) {
    var all := FreshAll(logs);
    && t.delivered == Sat64(|all|)
    && t.duplicates == Sat64(Repeats(logs))
    && t.overRange == Sat64(CountFiled(all, w, OverRange))
    && t.anomalies == Sat64(CountFiled(all, w, Anomaly))
    && LatencyOk(t.latency, w, all)
  }

  function CallsIn(logs: seq<seq<Delivery>>): nat {
    if logs == [] then 0 else CallsIn(logs[..|logs| - 1]) + |logs[|logs| - 1]|
  }

  /** Deliveries whose sequence number the connection had already delivered. */
  function Repeats(logs: seq<seq<Delivery>>): nat {
    if logs == [] then 0
    else
      var log := logs[|logs| - 1];
      Repeats(logs[..|logs| - 1]) + (|log| - |Fresh(log)|)
  }

  lemma {:induction false} FreshOrRepeated(logs: seq<seq<Delivery>>)
    ensures |FreshAll(logs)| + Repeats(logs) == CallsIn(logs)
  {
    if logs != [] { FreshOrRepeated(logs[..|logs| - 1]); }
  }

  function AddShard(t: Totals, tally: Tally, latency: Histogram): Totals {
    Totals(Sat64(t.delivered + tally.delivered), Sat64(t.duplicates + tally.duplicates),
           Sat64(t.overRange + tally.overRange), Sat64(t.anomalies + tally.anomalies), Merge(t.latency, latency))
  }

  lemma MergedLatencyOk(a: Histogram, da: seq<Delivery>, b: Histogram, db: seq<Delivery>, w: Window)
    requires LatencyOk(a, w, da) && LatencyOk(b, w, db)
    ensures LatencyOk(Merge(a, b), w, da + db)
  {
    MergeWellFormed(a, b);
    MergeCounts(a, b, 0);
    CountsConcat(da, db, w, Sample, 0, 0);
    forall top: nat ensures CountAt(Merge(a, b), top) == CountSamplesAt(da + db, w, top) {
      MergeCounts(a, b, top);
      CountsConcat(da, db, w, Sample, 0, top);
    }
  }

  lemma AddShardOk(t: Totals, w: Window, logs: seq<seq<Delivery>>, tally: Tally, latency: Histogram, log: seq<Delivery>)
    requires TotalsOk(t, w, logs) && TallyOk(tally, w, log) && LatencyOk(latency, w, Fresh(log))
    ensures TotalsOk(AddShard(t, tally, latency), w, logs + [log])
  {
    var more := logs + [log];
    assert more[..|logs|] == logs;
    assert FreshAll(more) == FreshAll(logs) + Fresh(log);
    CountsConcat(FreshAll(logs), Fresh(log), w, OverRange, 0, 0);
    CountsConcat(FreshAll(logs), Fresh(log), w, Anomaly, 0, 0);
    MergedLatencyOk(t.latency, FreshAll(logs), latency, Fresh(log), w);
  }

  lemma LogsStep(calls: seq<Call>, n: nat)
    ensures LogsOf(calls, n + 1) == LogsOf(calls, n) + [Project(calls, n)]
  {
  }

  lemma FreshLogsStep(calls: seq<Call>, n: nat)
    ensures FreshAll(LogsOf(calls, n + 1)) == FreshAll(LogsOf(calls, n)) + Fresh(Project(calls, n))
  {
    assert LogsOf(calls, n + 1)[..n] == LogsOf(calls, n);
  }

  lemma MorePart(parts: seq<Timeline>, dss: seq<seq<Delivery>>, part: Timeline, ds: seq<Delivery>)
    requires PartsOk(parts, dss) && TimelineOf(part, ds)
    ensures PartsOk(parts + [part], dss + [ds]) && Concat(dss + [ds]) == Concat(dss) + ds
  {
    assert (dss + [ds])[..|dss|] == dss;
  }

  lemma WrapStep(n: nat, m: nat)
    requires m > 0
    ensures (n % m + 1) % m == (n + 1) % m
  {
    var q, r := n / m, n % m;
    assert n + 1 == q * m + (r + 1);
    if r + 1 == m {
      assert n + 1 == (q + 1) * m + 0;
      RemainderOf(n + 1, m, q + 1, 0);
      RemainderOf(m, m, 1, 0);
    } else {
      RemainderOf(n + 1, m, q, r + 1);
      RemainderOf(r + 1, m, 0, r + 1);
    }
  }

  const NOT_ARMED: Window := Window(0, 0)

  class Recorder {
    const shards: seq<Shard>
    var armed: Option<(nat, Window)>  // origin second and window
    var foreignPayloads: nat          // an atomic `u64` that wraps
    ghost var calls: seq<Call>        // the calls that were not foreign, in order
    ghost var foreignCalls: nat

    ghost function RunWindow(): Window
      reads this
    {
      if armed.Some? then armed.value.1 else NOT_ARMED
    }

    /** Every shard holds exactly the calls of its connection. */
    ghost predicate Valid()
      reads this, shards
    {
      && (forall i, j | 0 <= i < j < |shards| :: shards[i] != shards[j])
      && (forall i | 0 <= i < |shards| :: shards[i].Valid(RunWindow()) && shards[i].log == Project(calls, i))
      && (forall i | 0 <= i < |calls| :: calls[i].conn < |shards|)
      && (armed.None? ==> calls == [])
      && foreignPayloads == foreignCalls % (U64_MAX + 1)
    }

    constructor (connections: u32)
      ensures Valid() && |shards| == connections && calls == [] && foreignCalls == 0 && armed.None?
      ensures forall i | 0 <= i < |shards| :: fresh(shards[i])
    {
      var made: seq<Shard> := [];
      for i := 0 to connections
        invariant |made| == i
        invariant forall k | 0 <= k < i :: fresh(made[k]) && made[k].Valid(NOT_ARMED) && made[k].log == []
        invariant forall k, l | 0 <= k < l < i :: made[k] != made[l]
      {
        var shard := new Shard(NOT_ARMED);
        made := made + [shard];
      }
      shards := made;
      armed, foreignPayloads, calls, foreignCalls := None, 0, [], 0;
    }

    /** `arm_at`: refused when the origin or window is too far off, or the recorder is armed already. */
    method ArmAt(originNs: u64, window: Window, nowNs: u64) returns (ok: bool)
      requires Valid()
      modifies this`armed
      ensures Valid()
      ensures ok <==>
                && old(armed).None?
                && originNs <= nowNs + ARM_ORIGIN_SKEW_MAX_NS && nowNs <= originNs + ARM_ORIGIN_SKEW_MAX_NS
                && originNs <= window.startNs < window.endNs <= originNs + WINDOW_MAX_SPAN_NS
      ensures armed == if ok then Some((SecOf(originNs), window)) else old(armed)
    {
      var skew := if originNs >= nowNs then originNs - nowNs else nowNs - originNs;
      if skew > ARM_ORIGIN_SKEW_MAX_NS {
        return false;
      }
      if window.startNs < originNs || window.startNs >= window.endNs {
        return false;
      }
      if window.endNs - originNs > WINDOW_MAX_SPAN_NS {
        return false;
      }
      if armed.Some? {
        return false;
      }
      forall i | 0 <= i < |shards| ensures shards[i].Valid(window) { EmptyShard(shards[i], NOT_ARMED, window); }
      armed := Some((SecOf(originNs), window));
      return true;
    }

    /** `record`: a call is filed under its connection, or counted foreign. */
    method RecordDelivery(payload: seq<byte>, nowNs: u64)
      requires Valid()
      modifies this, shards
      ensures Valid() && armed == old(armed)
      ensures var call := if armed.Some? then CallOf(payload, nowNs, |shards|) else None;
              && calls == (if call.Some? then old(calls) + [call.value] else old(calls))
              && foreignCalls == (if call.Some? then old(foreignCalls) else old(foreignCalls) + 1)
    {
      if armed.None? {
        CountForeign();
        return;
      }
      var stamp := DecodeStamp(payload);
      if stamp.None? {
        CountForeign();
        return;
      }
      var conn := stamp.value.connId;
      if conn >= |shards| {
        CountForeign();
        return;
      }
      Route(conn, Delivery(stamp.value.seqNo, stamp.value.scheduledNs, nowNs));
    }

    method CountForeign()
      requires Valid()
      modifies this`foreignPayloads, this`foreignCalls
      ensures Valid() && foreignCalls == old(foreignCalls) + 1
    {
      WrapStep(foreignCalls, U64_MAX + 1);
      foreignPayloads := (foreignPayloads + 1) % (U64_MAX + 1);
      foreignCalls := foreignCalls + 1;
    }

    method Route(conn: nat, d: Delivery)
      requires Valid() && armed.Some? && conn < |shards|
      modifies this`calls, shards[conn]
      ensures Valid() && calls == old(calls) + [Call(conn, d)]
    {
      var shard := shards[conn];
      shard.RecordHere(d, armed.value.0, armed.value.1);
      forall i | 0 <= i < |shards|
        ensures Project(calls + [Call(conn, d)], i) == if i == conn then Project(calls, i) + [d] else Project(calls, i)
      {
        ProjectStep(calls, Call(conn, d), i);
      }
      calls := calls + [Call(conn, d)];
    }

    /**
      `report`: every number is what the plain list of calls gives. Fresh deliveries, duplicates
      and filings over all connections; the merged timeline second by second; the histogram bucket
      by bucket.
      */
    method Report() returns (r: DeliveryReport)
      requires Valid()
      ensures var logs := LogsOf(calls, |shards|);
              && TotalsOk(Totals(r.delivered, r.duplicates, r.latencyOverRange, r.clockAnomalies, r.latency),
                          RunWindow(), logs)
              && TimelineOf(r.timeline, FreshAll(logs))
      ensures Reads(r, RunWindow(), calls)
      ensures r.foreignPayloads == foreignCalls % (U64_MAX + 1) && r.dropped.None?
    {
      var t := Totals(0, 0, 0, 0, []);
      var parts: seq<Timeline> := [];
      ghost var dss: seq<seq<Delivery>> := [];
      for n := 0 to |shards|
        invariant TotalsOk(t, RunWindow(), LogsOf(calls, n))
        invariant PartsOk(parts, dss) && Concat(dss) == FreshAll(LogsOf(calls, n))
      {
        var shard := shards[n];
        ghost var log := shard.log;
        assert shard.Valid(RunWindow()) && log == Project(calls, n);
        AddShardOk(t, RunWindow(), LogsOf(calls, n), shard.tally, shard.latency, log);
        t := AddShard(t, shard.tally, shard.latency);
        LogsStep(calls, n);
        FreshLogsStep(calls, n);
        if shard.timelineOriginSec.Some? {
          var part := Timeline(shard.timelineOriginSec.value, shard.timeline);
          MorePart(parts, dss, part, Fresh(log));
          parts := parts + [part];
          dss := dss + [Fresh(log)];
        }
      }
      var timeline := MergeTimelines(parts, if armed.Some? then armed.value.0 else 0, dss);
      r := DeliveryReport(t.delivered, t.duplicates, foreignPayloads, t.overRange, t.anomalies, None, timeline,
                          t.latency);
      ReportReads(r, RunWindow(), calls, |shards|);
    }
  }

  lemma EmptyShard(shard: Shard, w: Window, w': Window)
    requires shard.Valid(w) && shard.log == []
    ensures shard.Valid(w')
  {
  }

  // ---------------------------------------------------------------- what a report accounts for

  lemma {:induction false} CallsPerConnection(calls: seq<Call>, n: nat)
    requires forall i | 0 <= i < |calls| :: calls[i].conn < n
    ensures CallsIn(LogsOf(calls, n)) == |calls|
    decreases |calls|
  {
    if calls == [] {
      NoCalls(n);
    } else {
      var before := calls[..|calls| - 1];
      var call := calls[|calls| - 1];
      CallsPerConnection(before, n);
      assert calls == before + [call];
      OneMoreCall(before, call, n);
    }
  }

  lemma {:induction false} NoCalls(n: nat)
    ensures CallsIn(LogsOf([], n)) == 0
  {
    if n > 0 {
      NoCalls(n - 1);
      assert LogsOf([], n)[..n - 1] == LogsOf([], n - 1);
    }
  }

  lemma {:induction false} OneMoreCall(calls: seq<Call>, call: Call, n: nat)
    ensures CallsIn(LogsOf(calls + [call], n)) == CallsIn(LogsOf(calls, n)) + if call.conn < n then 1 else 0
    decreases n
  {
    if n == 0 {
      assert LogsOf(calls + [call], 0) == LogsOf(calls, 0) == [];
    } else {
      OneMoreCall(calls, call, n - 1);
      OneMoreCallOf(calls, call, n - 1);
      CallsInStep(calls, n - 1);
      CallsInStep(calls + [call], n - 1);
    }
  }

  lemma OneMoreCallOf(calls: seq<Call>, call: Call, conn: nat)
    ensures |Project(calls + [call], conn)| == |Project(calls, conn)| + if call.conn == conn then 1 else 0
  {
    ProjectStep(calls, call, conn);
  }

  lemma CallsInStep(calls: seq<Call>, n: nat)
    ensures CallsIn(LogsOf(calls, n + 1)) == CallsIn(LogsOf(calls, n)) + |Project(calls, n)|
  {
    assert LogsOf(calls, n + 1)[..n] == LogsOf(calls, n);
  }

  lemma PairsStep(calls: seq<Call>, n: nat)
    ensures Pairs(LogsOf(calls, n + 1)) == Pairs(LogsOf(calls, n)) + SeqNos(Project(calls, n), n)
  {
    assert LogsOf(calls, n + 1)[..n] == LogsOf(calls, n);
  }

  /** The distinct (connection, sequence number) pairs of the calls. */
  ghost function CallKeys(calls: seq<Call>): set<(nat, nat)> {
    set c | c in calls :: (c.conn, c.d.seqNo)
  }

  lemma {:induction false} ProjectedKeys(calls: seq<Call>, conn: nat, seqNo: nat)
    ensures Has(Project(calls, conn), seqNo) <==> (conn, seqNo) in CallKeys(calls)
  {
    if calls != [] {
      var before := calls[..|calls| - 1];
      var call := calls[|calls| - 1];
      ProjectedKeys(before, conn, seqNo);
      FreshStep(Project(before, conn), call.d);
      assert calls == before + [call];
      assert CallKeys(calls) == CallKeys(before) + {(call.conn, call.d.seqNo)} by {
        assert call in calls && forall c | c in before :: c in calls;
      }
    }
  }

  lemma NoPairs(logs: seq<seq<Delivery>>)
    requires logs == []
    ensures Pairs(logs) == {}
  {
  }

  lemma {:induction false} PairsOfLogs(calls: seq<Call>, n: nat, conn: nat, seqNo: nat)
    ensures (conn, seqNo) in Pairs(LogsOf(calls, n)) <==> conn < n && Has(Project(calls, conn), seqNo)
  {
    if n == 0 {
      NoPairs(LogsOf(calls, 0));
    } else {
      PairsOfLogs(calls, n - 1, conn, seqNo);
      PairOfLast(calls, n - 1, conn, seqNo);
    }
  }

  lemma PairOfLast(calls: seq<Call>, n: nat, conn: nat, seqNo: nat)
    ensures (conn, seqNo) in Pairs(LogsOf(calls, n + 1)) <==>
              (conn, seqNo) in Pairs(LogsOf(calls, n)) || (conn == n && Has(Project(calls, n), seqNo))
  {
    PairsStep(calls, n);
    SeqNosHas(Project(calls, n), n, (conn, seqNo));
  }

  lemma PairsOfCalls(calls: seq<Call>, n: nat)
    requires forall i | 0 <= i < |calls| :: calls[i].conn < n
    ensures Pairs(LogsOf(calls, n)) == CallKeys(calls)
  {
    forall p: (nat, nat) ensures p in Pairs(LogsOf(calls, n)) <==> p in CallKeys(calls) {
      PairsOfLogs(calls, n, p.0, p.1);
      ProjectedKeys(calls, p.0, p.1);
    }
  }

  /** The fresh deliveries of all connections are as many as the distinct pairs of the calls. */
  lemma FreshCountsKeys(calls: seq<Call>, n: nat)
    requires forall i | 0 <= i < |calls| :: calls[i].conn < n
    ensures |FreshAll(LogsOf(calls, n))| == |CallKeys(calls)|
  {
    FreshAllCountsPairs(LogsOf(calls, n));
    PairsOfCalls(calls, n);
  }

  lemma CountsOfCalls(delivered: nat, duplicates: nat, calls: seq<Call>, n: nat)
    requires (forall i | 0 <= i < |calls| :: calls[i].conn < n) && |calls| <= U64_MAX
    requires delivered == Sat64(|FreshAll(LogsOf(calls, n))|)
    requires duplicates == Sat64(Repeats(LogsOf(calls, n)))
    ensures delivered == |CallKeys(calls)| == |FreshAll(LogsOf(calls, n))| && delivered + duplicates == |calls|
  {
    CallsPerConnection(calls, n);
    FreshOrRepeated(LogsOf(calls, n));
    FreshCountsKeys(calls, n);
  }

  // ---------------------------------------------------------------- the report read off the calls

  /** No earlier call has the connection and sequence number of call `i`. */
  ghost predicate IsFirst(calls: seq<Call>, i: nat)
    requires i < |calls|
  {
    forall j | 0 <= j < i :: calls[j].conn != calls[i].conn || calls[j].d.seqNo != calls[i].d.seqNo
  }

  /** The first calls of their kind whose delivery meets a condition. */
  ghost function Firsts(calls: seq<Call>, p: Delivery -> bool): set<nat> {
    set i: nat | i < |calls| && IsFirst(calls, i) && p(calls[i].d)
  }

  lemma {:induction false} FirstIsNew(calls: seq<Call>, call: Call)
    ensures IsFirst(calls + [call], |calls|) <==> !Has(Project(calls, call.conn), call.d.seqNo)
  {
    ProjectedKeys(calls, call.conn, call.d.seqNo);
    var more := calls + [call];
    if (call.conn, call.d.seqNo) in CallKeys(calls) {
      var c :| c in calls && (c.conn, c.d.seqNo) == (call.conn, call.d.seqNo);
      var j :| 0 <= j < |calls| && calls[j] == c;
      assert more[j] == c;
    } else {
      forall j | 0 <= j < |calls| ensures more[j].conn != call.conn || more[j].d.seqNo != call.d.seqNo {
        assert calls[j] in calls && more[j] == calls[j];
      }
    }
  }

  lemma {:induction false} FirstsGrow(calls: seq<Call>, call: Call, p: Delivery -> bool)
    ensures Firsts(calls + [call], p)
         == Firsts(calls, p) + if IsFirst(calls + [call], |calls|) && p(call.d) then {|calls|} else {}
  {
    var more := calls + [call];
    forall i: nat | i < |calls| ensures IsFirst(more, i) <==> IsFirst(calls, i) {
      assert forall j | 0 <= j <= i :: more[j] == calls[j];
    }
  }

  lemma {:induction false} FirstsStep(calls: seq<Call>, call: Call, p: Delivery -> bool)
    ensures |Firsts(calls + [call], p)|
         == |Firsts(calls, p)| + if !Has(Project(calls, call.conn), call.d.seqNo) && p(call.d) then 1 else 0
  {
    FirstIsNew(calls, call);
    FirstsGrow(calls, call, p);
    assert |calls| !in Firsts(calls, p);
  }

  lemma {:induction false} FreshSplitWhere(calls: seq<Call>, n: nat, p: Delivery -> bool)
    ensures CountWhere(FreshAll(LogsOf(calls, n + 1)), p)
         == CountWhere(FreshAll(LogsOf(calls, n)), p) + CountWhere(Fresh(Project(calls, n)), p)
  {
    FreshLogsStep(calls, n);
    CountWhereConcat(FreshAll(LogsOf(calls, n)), Fresh(Project(calls, n)), p);
  }

  lemma {:induction false} FreshStepWhere(calls: seq<Call>, call: Call, n: nat, p: Delivery -> bool)
    ensures CountWhere(FreshAll(LogsOf(calls + [call], n)), p)
         == CountWhere(FreshAll(LogsOf(calls, n)), p)
            + if call.conn < n && !Has(Project(calls, call.conn), call.d.seqNo) && p(call.d) then 1 else 0
    decreases n
  {
    if n > 0 {
      FreshStepWhere(calls, call, n - 1, p);
      OneConnectionMore(calls, call, n - 1, p);
    } else {
      assert LogsOf(calls + [call], 0) == LogsOf(calls, 0);
    }
  }

  lemma {:induction false} OneConnectionMore(calls: seq<Call>, call: Call, conn: nat, p: Delivery -> bool)
    ensures CountWhere(FreshAll(LogsOf(calls + [call], conn + 1)), p)
            - CountWhere(FreshAll(LogsOf(calls + [call], conn)), p)
         == CountWhere(FreshAll(LogsOf(calls, conn + 1)), p) - CountWhere(FreshAll(LogsOf(calls, conn)), p)
            + if call.conn == conn && !Has(Project(calls, conn), call.d.seqNo) && p(call.d) then 1 else 0
  {
    FreshPartWhere(calls, call, conn, p);
    FreshSplitWhere(calls, conn, p);
    FreshSplitWhere(calls + [call], conn, p);
  }

  lemma {:induction false} FreshPartWhere(calls: seq<Call>, call: Call, conn: nat, p: Delivery -> bool)
    ensures CountWhere(Fresh(Project(calls + [call], conn)), p)
         == CountWhere(Fresh(Project(calls, conn)), p)
            + if call.conn == conn && !Has(Project(calls, conn), call.d.seqNo) && p(call.d) then 1 else 0
  {
    ProjectStep(calls, call, conn);
    var fresh_ := Fresh(Project(calls, conn));
    FreshStep(Project(calls, conn), call.d);
    assert (fresh_ + [call.d])[..|fresh_|] == fresh_;
  }

  /** Counting fresh deliveries shard by shard is counting first calls. */
  lemma {:induction false} FreshWhere(calls: seq<Call>, n: nat, p: Delivery -> bool)
    requires forall i | 0 <= i < |calls| :: calls[i].conn < n
    ensures CountWhere(FreshAll(LogsOf(calls, n)), p) == |Firsts(calls, p)|
    decreases |calls|
  {
    if calls == [] {
      NoCallsNoFresh(n);
      assert Firsts([], p) == {};
    } else {
      var before, call := calls[..|calls| - 1], calls[|calls| - 1];
      FreshWhere(before, n, p);
      assert calls == before + [call];
      FreshStepWhere(before, call, n, p);
      FirstsStep(before, call, p);
    }
  }

  lemma {:induction false} NoCallsNoFresh(n: nat)
    ensures FreshAll(LogsOf([], n)) == []
  {
    if n > 0 {
      NoCallsNoFresh(n - 1);
      FreshLogsStep([], n - 1);
    }
  }

  /** Scheduled in the window and not delivered before that. */
  predicate Timed(d: Delivery, w: Window) {
    w.startNs <= d.scheduledNs < w.endNs && d.scheduledNs <= d.nowNs
  }

  /** The bucket of a latency, at least one nanosecond. */
  function LatencyBucket(d: Delivery): nat {
    BucketTop(if d.nowNs > d.scheduledNs then d.nowNs - d.scheduledNs else 1)
  }

  /** In-window latencies reported at bucket `top`. */
  ghost function TookAt(w: Window, top: nat): Delivery -> bool {
    d => Timed(d, w) && d.nowNs <= d.scheduledNs + LATENCY_MAX_NS && LatencyBucket(d) == top
  }

  /** In-window latencies past the histogram's range. */
  ghost function TookTooLong(w: Window): Delivery -> bool {
    d => Timed(d, w) && d.nowNs > d.scheduledNs + LATENCY_MAX_NS
  }

  ghost function Any(): Delivery -> bool {
    d => true
  }

  /** Delivered before it was scheduled. */
  ghost function TooEarly(): Delivery -> bool {
    (d: Delivery) => d.nowNs < d.scheduledNs
  }

  /** Delivered in the seconds `[from, to)`. */
  ghost function During(fromSec: nat, toSec: nat): Delivery -> bool {
    (d: Delivery) => fromSec <= d.nowNs / SECOND < toSec
  }

  /** Every number of a report, read off the calls: which of them come first, and their two times. */
  ghost predicate Reads(r: DeliveryReport, w: Window, calls: seq<Call>) {
    match r
    case DeliveryReport(delivered, duplicates, _, overRange, anomalies, _, timeline, latency) =>
      var firsts := |Firsts(calls, Any())|;
      && delivered == Sat64(firsts) && firsts <= |calls| && duplicates == Sat64(|calls| - firsts)
      && anomalies == Sat64(|Firsts(calls, TooEarly())|)
      && overRange == Sat64(|Firsts(calls, TookTooLong(w))|)
      && WellFormed(latency)
      && (forall top: nat {:trigger CountAt(latency, top)} :: CountAt(latency, top) == |Firsts(calls, TookAt(w, top))|)
      && (|calls| <= U64_MAX ==> TimelineReads(timeline, calls) && SumOf(timeline.counts) == firsts)
  }

  /** The timeline counts, for any stretch of seconds, the first calls it delivered. */
  ghost predicate TimelineReads(t: Timeline, calls: seq<Call>) {
    forall fromSec: nat, toSec: nat {:trigger SumSecs(t, fromSec, toSec)} ::
      SumSecs(t, fromSec, toSec) == |Firsts(calls, During(fromSec, toSec))|
  }

  lemma {:induction false} ReadsAnomalies(calls: seq<Call>, n: nat, w: Window)
    requires forall i | 0 <= i < |calls| :: calls[i].conn < n
    ensures CountFiled(FreshAll(LogsOf(calls, n)), w, Anomaly) == |Firsts(calls, TooEarly())|
  {
    FiledWhere(FreshAll(LogsOf(calls, n)), w, Anomaly, TooEarly());
    FreshWhere(calls, n, TooEarly());
  }

  lemma {:induction false} ReadsOverRange(calls: seq<Call>, n: nat, w: Window)
    requires forall i | 0 <= i < |calls| :: calls[i].conn < n
    ensures CountFiled(FreshAll(LogsOf(calls, n)), w, OverRange) == |Firsts(calls, TookTooLong(w))|
  {
    FiledWhere(FreshAll(LogsOf(calls, n)), w, OverRange, TookTooLong(w));
    FreshWhere(calls, n, TookTooLong(w));
  }

  lemma {:induction false} ReadsBucket(calls: seq<Call>, n: nat, w: Window, top: nat)
    requires forall i | 0 <= i < |calls| :: calls[i].conn < n
    ensures CountSamplesAt(FreshAll(LogsOf(calls, n)), w, top) == |Firsts(calls, TookAt(w, top))|
  {
    SamplesWhere(FreshAll(LogsOf(calls, n)), w, top, TookAt(w, top));
    FreshWhere(calls, n, TookAt(w, top));
  }

  lemma {:induction false} ReadsSize(calls: seq<Call>, n: nat)
    requires forall i | 0 <= i < |calls| :: calls[i].conn < n
    ensures |FreshAll(LogsOf(calls, n))| == |Firsts(calls, Any())|
  {
    AllWhere(FreshAll(LogsOf(calls, n)), Any());
    FreshWhere(calls, n, Any());
  }

  lemma {:induction false} ReadsTimeline(t: Timeline, calls: seq<Call>, n: nat)
    requires forall i | 0 <= i < |calls| :: calls[i].conn < n
    requires |calls| <= U64_MAX && TimelineOf(t, FreshAll(LogsOf(calls, n)))
    ensures TimelineReads(t, calls) && SumOf(t.counts) == |Firsts(calls, Any())|
  {
    var all := FreshAll(LogsOf(calls, n));
    ReadsSize(calls, n);
    CallsPerConnection(calls, n);
    FreshOrRepeated(LogsOf(calls, n));
    TimelineTotalIsDelivered(t, all);
    forall fromSec: nat, toSec: nat ensures SumSecs(t, fromSec, toSec) == |Firsts(calls, During(fromSec, toSec))| {
      SumSecsIsDelivered(t, all, fromSec, toSec);
      SpanWhere(all, fromSec, toSec, During(fromSec, toSec));
      FreshWhere(calls, n, During(fromSec, toSec));
    }
  }

  /** The report of any sequence of calls is the one that can be read off them. */
  lemma {:induction false} ReportReads(r: DeliveryReport, w: Window, calls: seq<Call>, n: nat)
    requires forall i | 0 <= i < |calls| :: calls[i].conn < n
    requires TotalsOk(Totals(r.delivered, r.duplicates, r.latencyOverRange, r.clockAnomalies, r.latency), w,
                      LogsOf(calls, n))
    requires TimelineOf(r.timeline, FreshAll(LogsOf(calls, n)))
    ensures Reads(r, w, calls)
  {
    ReadsSize(calls, n);
    CallsPerConnection(calls, n);
    FreshOrRepeated(LogsOf(calls, n));
    ReadsAnomalies(calls, n, w);
    ReadsOverRange(calls, n, w);
    forall top: nat ensures CountAt(r.latency, top) == |Firsts(calls, TookAt(w, top))| {
      ReadsBucket(calls, n, w, top);
    }
    if |calls| <= U64_MAX { ReadsTimeline(r.timeline, calls, n); }
  }

  /** Without a call the window does not matter. */
  lemma {:induction false} NoCallsAnyWindow(r: DeliveryReport, w: Window, w': Window)
    requires Reads(r, w, [])
    ensures Reads(r, w', [])
  {
    assert Firsts([], TookTooLong(w)) == Firsts([], TookTooLong(w')) == {};
    forall top: nat ensures CountAt(r.latency, top) == |Firsts([], TookAt(w', top))| {
      assert Firsts([], TookAt(w, top)) == Firsts([], TookAt(w', top)) == {};
    }
  }

  /**
    Over any sequence of calls that fits a `u64`: delivered counts the distinct (connection,
    sequence number) pairs, every call is delivered, a duplicate or foreign, and the timeline's
    total is the delivered count.
    */
  lemma ReportAccountsForEveryCall(r: DeliveryReport, w: Window, calls: seq<Call>, foreignCalls: nat, n: nat)
    requires forall i | 0 <= i < |calls| :: calls[i].conn < n
    requires |calls| + foreignCalls <= U64_MAX
    requires TotalsOk(Totals(r.delivered, r.duplicates, r.latencyOverRange, r.clockAnomalies, r.latency), w,
                      LogsOf(calls, n))
    requires TimelineOf(r.timeline, FreshAll(LogsOf(calls, n)))
    requires r.foreignPayloads == foreignCalls % (U64_MAX + 1)
    ensures r.delivered == |CallKeys(calls)|
    ensures r.delivered + r.duplicates + r.foreignPayloads == |calls| + foreignCalls
    ensures TimelineTotal(r.timeline) == Some(r.delivered)
  {
    CountsOfCalls(r.delivered, r.duplicates, calls, n);
    TimelineTotalIsDelivered(r.timeline, FreshAll(LogsOf(calls, n)));
  }
}
