/** What a recorder must agree with: the plain list of deliveries made to it. */
module Deliveries {
  import opened Arith
  import opened Slots
  import opened Histogram

  /** One delivery of a connection: its sequence number, scheduled time and arrival time. */
  datatype Delivery = Delivery(seqNo: u64, scheduledNs: u64, nowNs: u64)

  predicate Has(log: seq<Delivery>, seqNo: nat) {
    exists i | 0 <= i < |log| :: log[i].seqNo == seqNo
  }

  /** The first delivery of each sequence number. */
  function Fresh(log: seq<Delivery>): (firsts: seq<Delivery>)
    ensures |firsts| <= |log|
  {
    if log == [] then []
    else
      var before := log[..|log| - 1];
      var d := log[|log| - 1];
      if Has(before, d.seqNo) then Fresh(before) else Fresh(before) + [d]
  }

  function SecOf(ns: nat): nat {
    ns / SECOND
  }

  /** Deliveries of second `sec`. */
  function CountSec(ds: seq<Delivery>, sec: nat): nat {
    if ds == [] then 0
    else CountSec(ds[..|ds| - 1], sec) + (if SecOf(ds[|ds| - 1].nowNs) == sec then 1 else 0)
  }

  /** How the recorder files a fresh delivery. */
  datatype Filing = Anomaly | OutsideWindow | OverRange | Sample

  function File(d: Delivery, w: Window): Filing {
    if d.scheduledNs > d.nowNs then Anomaly
    else if !w.Contains(d.scheduledNs) then OutsideWindow
    else if d.nowNs - d.scheduledNs > LATENCY_MAX_NS then OverRange
    else Sample
  }

  function CountFiled(ds: seq<Delivery>, w: Window, f: Filing): nat {
    if ds == [] then 0
    else CountFiled(ds[..|ds| - 1], w, f) + (if File(ds[|ds| - 1], w) == f then 1 else 0)
  }

  /** The latency sample of a delivery filed as one. */
  function SampleOf(d: Delivery): nat {
    Max(SatSub(d.nowNs, d.scheduledNs), 1)
  }

  /** Samples reported at bucket `top`. */
  function CountSamplesAt(ds: seq<Delivery>, w: Window, top: nat): nat {
    if ds == [] then 0
    else
      var d := ds[|ds| - 1];
      CountSamplesAt(ds[..|ds| - 1], w, top) + (if File(d, w) == Sample && BucketTop(SampleOf(d)) == top then 1 else 0)
  }

  lemma {:induction false} CountsConcat(a: seq<Delivery>, b: seq<Delivery>, w: Window, f: Filing, sec: nat, top: nat)
    ensures CountSec(a + b, sec) == CountSec(a, sec) + CountSec(b, sec)
    ensures CountFiled(a + b, w, f) == CountFiled(a, w, f) + CountFiled(b, w, f)
    ensures CountSamplesAt(a + b, w, top) == CountSamplesAt(a, w, top) + CountSamplesAt(b, w, top)
    decreases |b|
  {
    if b == [] {
      assert a + b == a;
    } else {
      assert (a + b)[..|a + b| - 1] == a + b[..|b| - 1];
      CountsConcat(a, b[..|b| - 1], w, f, sec, top);
    }
  }

  /** Deliveries that meet a condition. */
  function CountWhere(ds: seq<Delivery>, p: Delivery -> bool): nat {
    if ds == [] then 0 else CountWhere(ds[..|ds| - 1], p) + if p(ds[|ds| - 1]) then 1 else 0
  }

  lemma {:induction false} CountWhereConcat(a: seq<Delivery>, b: seq<Delivery>, p: Delivery -> bool)
    ensures CountWhere(a + b, p) == CountWhere(a, p) + CountWhere(b, p)
    decreases |b|
  {
    if b == [] {
      assert a + b == a;
    } else {
      assert (a + b)[..|a + b| - 1] == a + b[..|b| - 1];
      CountWhereConcat(a, b[..|b| - 1], p);
    }
  }

  lemma {:induction false} FiledWhere(ds: seq<Delivery>, w: Window, f: Filing, p: Delivery -> bool)
    requires forall d :: p(d) <==> File(d, w) == f
    ensures CountFiled(ds, w, f) == CountWhere(ds, p)
  {
    if ds != [] { FiledWhere(ds[..|ds| - 1], w, f, p); }
  }

  lemma {:induction false} SamplesWhere(ds: seq<Delivery>, w: Window, top: nat, p: Delivery -> bool)
    requires forall d :: p(d) <==> File(d, w) == Sample && BucketTop(SampleOf(d)) == top
    ensures CountSamplesAt(ds, w, top) == CountWhere(ds, p)
  {
    if ds != [] { SamplesWhere(ds[..|ds| - 1], w, top, p); }
  }

  lemma {:induction false} SpanWhere(ds: seq<Delivery>, fromSec: nat, toSec: nat, p: Delivery -> bool)
    requires forall d :: p(d) <==> fromSec <= d.nowNs / SECOND < toSec
    ensures CountSpan(ds, fromSec, toSec) == CountWhere(ds, p)
  {
    if ds != [] { SpanWhere(ds[..|ds| - 1], fromSec, toSec, p); }
  }

  lemma {:induction false} AllWhere(ds: seq<Delivery>, p: Delivery -> bool)
    requires forall d :: p(d)
    ensures CountWhere(ds, p) == |ds|
  {
    if ds != [] { AllWhere(ds[..|ds| - 1], p); }
  }

  lemma FreshStep(log: seq<Delivery>, d: Delivery)
    ensures Fresh(log + [d]) == if Has(log, d.seqNo) then Fresh(log) else Fresh(log) + [d]
    ensures forall s: nat :: Has(log + [d], s) <==> s == d.seqNo || Has(log, s)
  {
    var more := log + [d];
    assert more[..|log|] == log;
    forall s: nat ensures Has(more, s) <==> s == d.seqNo || Has(log, s) {
      assert more[|log|] == d;
      if Has(log, s) {
        var i :| 0 <= i < |log| && log[i].seqNo == s;
        assert more[i] == log[i];
      }
    }
  }

  /** The fresh deliveries of every connection, one connection after another. */
  function FreshAll(logs: seq<seq<Delivery>>): seq<Delivery> {
    if logs == [] then [] else FreshAll(logs[..|logs| - 1]) + Fresh(logs[|logs| - 1])
  }

  // ---------------------------------------------------------------- timelines

  datatype Timeline = Timeline(originSec: nat, counts: seq<nat>)

  /** The bin of second `sec`, 0 where the timeline holds none. */
  function BinAt(t: Timeline, sec: nat): nat {
    if t.originSec <= sec < t.originSec + |t.counts| then t.counts[sec - t.originSec] else 0
  }

  /** `t` holds, for every second, exactly the deliveries of that second. */
  ghost predicate TimelineOf(t: Timeline, ds: seq<Delivery>) {
    && (forall sec: nat :: BinAt(t, sec) == Sat64(CountSec(ds, sec)))
    && forall i | 0 <= i < |ds| :: t.originSec <= SecOf(ds[i].nowNs) < t.originSec + |t.counts|
  }

  function SumOf(counts: seq<nat>): nat {
    if counts == [] then 0 else SumOf(counts[..|counts| - 1]) + counts[|counts| - 1]
  }

  /** `Timeline::total`: the checked sum of every bin. */
  function TimelineTotal(t: Timeline): Option<nat> {
    if SumOf(t.counts) <= U64_MAX then Some(SumOf(t.counts)) else None
  }

  /** `Timeline::sum_secs`: walks the stored bins inside `[from, to)`, saturating. */
  function SumSecs(t: Timeline, fromSec: nat, toSec: nat): nat {
    var firstSec := Max(fromSec, t.originSec);
    var lastSec := Min(toSec, t.originSec + |t.counts|);
    if lastSec <= firstSec then 0
    else Sat64(SumOf(t.counts[firstSec - t.originSec..lastSec - t.originSec]))
  }

  /** Deliveries of the seconds `[from, to)`. */
  function CountSpan(ds: seq<Delivery>, fromSec: nat, toSec: nat): nat {
    if ds == [] then 0
    else CountSpan(ds[..|ds| - 1], fromSec, toSec)
         + (if fromSec <= SecOf(ds[|ds| - 1].nowNs) < toSec then 1 else 0)
  }

  lemma {:induction false} CountSpanStep(ds: seq<Delivery>, fromSec: nat, toSec: nat)
    requires fromSec <= toSec
    ensures CountSpan(ds, fromSec, toSec + 1) == CountSpan(ds, fromSec, toSec) + CountSec(ds, toSec)
  {
    if ds != [] { CountSpanStep(ds[..|ds| - 1], fromSec, toSec); }
  }

  lemma {:induction false} CountSpanEmpty(ds: seq<Delivery>, sec: nat)
    ensures CountSpan(ds, sec, sec) == 0
  {
    if ds != [] { CountSpanEmpty(ds[..|ds| - 1], sec); }
  }

  lemma {:induction false} CountSpanBound(ds: seq<Delivery>, fromSec: nat, toSec: nat)
    ensures CountSpan(ds, fromSec, toSec) <= |ds|
    ensures (forall i | 0 <= i < |ds| :: fromSec <= SecOf(ds[i].nowNs) < toSec)
            ==> CountSpan(ds, fromSec, toSec) == |ds|
  {
    if ds != [] { CountSpanBound(ds[..|ds| - 1], fromSec, toSec); }
  }

  lemma {:induction false} CountSecBound(ds: seq<Delivery>, sec: nat)
    ensures CountSec(ds, sec) <= |ds|
  {
    if ds != [] { CountSecBound(ds[..|ds| - 1], sec); }
  }

  /** A stretch of bins sums to the deliveries of its seconds. */
  lemma {:induction false} BinsSum(t: Timeline, ds: seq<Delivery>, a: nat, b: nat)
    requires TimelineOf(t, ds) && |ds| <= U64_MAX && a <= b <= |t.counts|
    ensures SumOf(t.counts[a..b]) == CountSpan(ds, t.originSec + a, t.originSec + b)
    decreases b
  {
    if a == b {
      CountSpanEmpty(ds, t.originSec + a);
    } else {
      BinsSum(t, ds, a, b - 1);
      var part := t.counts[a..b];
      assert part[..|part| - 1] == t.counts[a..b - 1];
      assert part[|part| - 1] == BinAt(t, t.originSec + b - 1);
      CountSecBound(ds, t.originSec + b - 1);
      CountSpanStep(ds, t.originSec + a, t.originSec + b - 1);
    }
  }

  /** A timeline accounts for every delivery. */
  lemma TimelineTotalIsDelivered(t: Timeline, ds: seq<Delivery>)
    requires TimelineOf(t, ds) && |ds| <= U64_MAX
    ensures TimelineTotal(t) == Some(|ds|)
  {
    BinsSum(t, ds, 0, |t.counts|);
    assert t.counts[0..|t.counts|] == t.counts;
    CountSpanBound(ds, t.originSec, t.originSec + |t.counts|);
  }

  lemma StretchIsDelivered(t: Timeline, ds: seq<Delivery>, firstSec: nat, lastSec: nat)
    requires TimelineOf(t, ds) && |ds| <= U64_MAX && t.originSec <= firstSec <= lastSec <= t.originSec + |t.counts|
    ensures SumOf(t.counts[firstSec - t.originSec..lastSec - t.originSec]) == CountSpan(ds, firstSec, lastSec)
    ensures CountSpan(ds, firstSec, lastSec) <= U64_MAX
  {
    BinsSum(t, ds, firstSec - t.originSec, lastSec - t.originSec);
    CountSpanBound(ds, firstSec, lastSec);
  }

  /** The walk over the stored bins, clipped to `[firstSec, lastSec)`. */
  lemma SumSecsClipped(t: Timeline, fromSec: nat, toSec: nat, firstSec: nat, lastSec: nat)
    requires firstSec == Max(fromSec, t.originSec) && lastSec == Min(toSec, t.originSec + |t.counts|)
    ensures lastSec <= firstSec ==> SumSecs(t, fromSec, toSec) == 0
    ensures firstSec < lastSec ==>
              SumSecs(t, fromSec, toSec) == Sat64(SumOf(t.counts[firstSec - t.originSec..lastSec - t.originSec]))
  {
  }

  /** Every delivery lies in a stored second. */
  lemma DeliveriesAreStored(t: Timeline, ds: seq<Delivery>, fromSec: nat, toSec: nat, firstSec: nat, lastSec: nat)
    requires TimelineOf(t, ds)
    requires firstSec == Max(fromSec, t.originSec) && lastSec == Min(toSec, t.originSec + |t.counts|)
    ensures CountSpan(ds, fromSec, toSec) == if lastSec <= firstSec then 0 else CountSpan(ds, firstSec, lastSec)
  {
    CountSpanClips(ds, fromSec, toSec, firstSec, lastSec, t.originSec, t.originSec + |t.counts|);
  }

  /** Any span of a timeline accounts for the span's deliveries. */
  lemma SumSecsIsDelivered(t: Timeline, ds: seq<Delivery>, fromSec: nat, toSec: nat)
    requires TimelineOf(t, ds) && |ds| <= U64_MAX
    ensures SumSecs(t, fromSec, toSec) == CountSpan(ds, fromSec, toSec)
  {
    var firstSec := Max(fromSec, t.originSec);
    var lastSec := Min(toSec, t.originSec + |t.counts|);
    SumSecsClipped(t, fromSec, toSec, firstSec, lastSec);
    DeliveriesAreStored(t, ds, fromSec, toSec, firstSec, lastSec);
    if firstSec < lastSec { StretchIsDelivered(t, ds, firstSec, lastSec); }
  }

  lemma {:induction false} CountSpanClips(ds: seq<Delivery>, fromSec: nat, toSec: nat, firstSec: nat, lastSec: nat,
                                          lo: nat, hi: nat)
    requires firstSec == Max(fromSec, lo) && lastSec == Min(toSec, hi)
    requires forall i | 0 <= i < |ds| :: lo <= SecOf(ds[i].nowNs) < hi
    ensures CountSpan(ds, fromSec, toSec) == if lastSec <= firstSec then 0 else CountSpan(ds, firstSec, lastSec)
  {
    if ds != [] { CountSpanClips(ds[..|ds| - 1], fromSec, toSec, firstSec, lastSec, lo, hi); }
  }

  // ---------------------------------------------------------------- distinct pairs

  /** The distinct (connection, sequence number) pairs delivered. */
  ghost function Pairs(logs: seq<seq<Delivery>>): set<(nat, nat)> {
    if logs == [] then {}
    else
      var c := |logs| - 1;
      Pairs(logs[..c]) + SeqNos(logs[c], c)
  }

  ghost function SeqNos(log: seq<Delivery>, c: nat): set<(nat, nat)> {
    if log == [] then {} else SeqNos(log[..|log| - 1], c) + {(c, log[|log| - 1].seqNo)}
  }

  lemma {:induction false} SeqNosHas(log: seq<Delivery>, c: nat, p: (nat, nat))
    ensures p in SeqNos(log, c) <==> p.0 == c && Has(log, p.1)
  {
    if log != [] {
      var before := log[..|log| - 1];
      SeqNosHas(before, c, p);
      assert log == before + [log[|log| - 1]];
      FreshStep(before, log[|log| - 1]);
    }
  }

  lemma {:induction false} FreshCountsSeqNos(log: seq<Delivery>, c: nat)
    ensures |Fresh(log)| == |SeqNos(log, c)|
  {
    if log != [] {
      var before := log[..|log| - 1];
      var d := log[|log| - 1];
      FreshCountsSeqNos(before, c);
      SeqNosHas(before, c, (c, d.seqNo));
      if Has(before, d.seqNo) { assert SeqNos(log, c) == SeqNos(before, c); }
    }
  }

  lemma {:induction false} PairsBelow(logs: seq<seq<Delivery>>, p: (nat, nat))
    requires p in Pairs(logs)
    ensures p.0 < |logs|
  {
    var c := |logs| - 1;
    SeqNosHas(logs[c], c, p);
    if p in Pairs(logs[..c]) { PairsBelow(logs[..c], p); }
  }

  /** The fresh deliveries of all connections are as many as the distinct pairs delivered. */
  lemma {:induction false} FreshAllCountsPairs(logs: seq<seq<Delivery>>)
    ensures |FreshAll(logs)| == |Pairs(logs)|
  {
    if logs != [] {
      var c := |logs| - 1;
      FreshAllCountsPairs(logs[..c]);
      FreshCountsSeqNos(logs[c], c);
      assert Pairs(logs[..c]) !! SeqNos(logs[c], c) by {
        forall p | p in Pairs(logs[..c]) ensures p !in SeqNos(logs[c], c) {
          PairsBelow(logs[..c], p);
          SeqNosHas(logs[c], c, p);
        }
      }
    }
  }
}
