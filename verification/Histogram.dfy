/**
  Latency histograms as the reports carry them: ascending `(bucket value, count)` pairs. A sample
  lands in the bucket whose top is the highest value that shares its 11 leading bits.
  */
module Histogram {
  import opened Arith

  const LATENCY_MAX_NS: nat := 60_000_000_000
  const LATENCY_BUCKET_MAX_NS: nat := 60_028_878_847
  const SUB_BUCKETS: nat := 2048

  type Histogram = seq<(nat, nat)>

  /** The value a recorded sample is reported at. */
  function BucketTop(v: nat): (top: nat)
    ensures v <= top
  {
    if v < SUB_BUCKETS then v else 2 * BucketTop(v / 2) + 1
  }

  ghost predicate Ascending(h: Histogram) {
    forall i, j | 0 <= i < j < |h| :: h[i].0 < h[j].0
  }

  ghost predicate InRange(h: Histogram) {
    forall i | 0 <= i < |h| :: 1 <= h[i].0 <= LATENCY_BUCKET_MAX_NS
  }

  ghost predicate WellFormed(h: Histogram) {
    Ascending(h) && InRange(h)
  }

  function Total(h: Histogram): nat {
    if h == [] then 0 else h[0].1 + Total(h[1..])
  }

  /** Samples reported at bucket `v`. */
  function CountAt(h: Histogram, v: nat): nat {
    if h == [] then 0 else (if h[0].0 == v then h[0].1 else 0) + CountAt(h[1..], v)
  }

  /** Samples reported at `v` or below. */
  function UpTo(h: Histogram, v: nat): nat {
    if h == [] then 0 else (if h[0].0 <= v then h[0].1 else 0) + UpTo(h[1..], v)
  }

  lemma {:induction false} UpToStep(h: Histogram, v: nat)
    ensures UpTo(h, v + 1) == UpTo(h, v) + CountAt(h, v + 1)
  {
    if h != [] { UpToStep(h[1..], v); }
  }

  lemma {:induction false} UpToZero(h: Histogram)
    ensures UpTo(h, 0) == CountAt(h, 0)
  {
    if h != [] { UpToZero(h[1..]); }
  }

  /** `n` more samples at bucket `v`. */
  function Add(h: Histogram, v: nat, n: nat): Histogram {
    if h == [] || v < h[0].0 then [(v, n)] + h
    else if v == h[0].0 then [(v, h[0].1 + n)] + h[1..]
    else [h[0]] + Add(h[1..], v, n)
  }

  function Record(h: Histogram, sample: nat): Histogram {
    Add(h, BucketTop(sample), 1)
  }

  /** Every sample of `b` added to `a`. */
  function Merge(a: Histogram, b: Histogram): Histogram
    decreases |b|
  {
    if b == [] then a else Merge(Add(a, b[0].0, b[0].1), b[1..])
  }

  lemma {:induction false} BucketTopMonotone(v: nat, w: nat)
    requires v <= w
    ensures BucketTop(v) <= BucketTop(w)
  {
    if SUB_BUCKETS <= v { BucketTopMonotone(v / 2, w / 2); }
  }

  /** A bucket is less than a 1024th of its values wide, and is reported at its highest value. */
  lemma {:induction false} BucketIsNarrow(v: nat)
    ensures v <= BucketTop(v) && BucketTop(BucketTop(v)) == BucketTop(v)
    ensures if v < SUB_BUCKETS then BucketTop(v) == v else 1024 * (BucketTop(v) - v + 1) <= v
  {
    if v >= SUB_BUCKETS {
      BucketIsNarrow(v / 2);
      assert BucketTop(v) / 2 == BucketTop(v / 2);
    }
  }

  lemma BucketTopOfTwoHalvings(v: nat)
    requires v >= 2 * SUB_BUCKETS
    ensures BucketTop(v) == 4 * BucketTop(v / 4) + 3
  {
    assert v / 2 / 2 == v / 4;
    assert BucketTop(v) == 2 * BucketTop(v / 2) + 1;
  }

  lemma BucketTopOfFiveHalvings(v: nat)
    requires v >= 16 * SUB_BUCKETS
    ensures BucketTop(v) == 32 * BucketTop(v / 32) + 31
  {
    assert v / 4 / 4 == v / 16 && v / 16 / 2 == v / 32;
    BucketTopOfTwoHalvings(v);
    BucketTopOfTwoHalvings(v / 4);
  }

  lemma BucketTopFrom(v: nat, w: nat, top: nat)
    requires v >= 16 * SUB_BUCKETS && w == v / 32 && BucketTop(w) == top
    ensures BucketTop(v) == 32 * top + 31
  {
    BucketTopOfFiveHalvings(v);
  }

  lemma LargestBucket(a: nat, b: nat, c: nat, d: nat, e: nat)
    requires a == 1788 && b == 57_220 && c == 1_831_054 && d == 58_593_750 && e == 1_875_000_000
    ensures BucketTop(LATENCY_MAX_NS) == LATENCY_BUCKET_MAX_NS
  {
    BucketTopFrom(b, a, 1788);
    BucketTopFrom(c, b, 57_247);
    BucketTopFrom(d, c, 1_831_935);
    BucketTopFrom(e, d, 58_621_951);
    BucketTopFrom(LATENCY_MAX_NS, e, 1_875_902_463);
  }

  /** The range check of the record reader admits every bucket a recorder fills. */
  lemma BucketTopInRange(v: nat)
    requires v <= LATENCY_MAX_NS
    ensures BucketTop(v) <= LATENCY_BUCKET_MAX_NS == BucketTop(LATENCY_MAX_NS)
  {
    BucketTopMonotone(v, LATENCY_MAX_NS);
    LargestBucket(1788, 57_220, 1_831_054, 58_593_750, 1_875_000_000);
  }

  lemma {:induction false} AddedCounts(h: Histogram, v: nat, n: nat, at: nat)
    ensures Total(Add(h, v, n)) == Total(h) + n
    ensures CountAt(Add(h, v, n), at) == CountAt(h, at) + (if at == v then n else 0)
  {
    if h != [] && v > h[0].0 { AddedCounts(h[1..], v, n, at); }
  }

  lemma {:induction false} AddWellFormed(h: Histogram, v: nat, n: nat)
    requires WellFormed(h) && 1 <= v <= LATENCY_BUCKET_MAX_NS
    ensures WellFormed(Add(h, v, n))
    ensures Add(h, v, n)[0].0 == if h == [] then v else Min(v, h[0].0)
  {
    if h != [] && v > h[0].0 {
      AddWellFormed(h[1..], v, n);
      var t := Add(h[1..], v, n);
      assert forall j | 0 < j < |t| :: t[0].0 < t[j].0;
    }
  }

  lemma {:induction false} MergeCounts(a: Histogram, b: Histogram, at: nat)
    ensures Total(Merge(a, b)) == Total(a) + Total(b)
    ensures CountAt(Merge(a, b), at) == CountAt(a, at) + CountAt(b, at)
    decreases |b|
  {
    if b != [] {
      AddedCounts(a, b[0].0, b[0].1, at);
      MergeCounts(Add(a, b[0].0, b[0].1), b[1..], at);
    }
  }

  lemma {:induction false} MergeWellFormed(a: Histogram, b: Histogram)
    requires WellFormed(a) && InRange(b)
    ensures WellFormed(Merge(a, b))
    decreases |b|
  {
    if b != [] {
      AddWellFormed(a, b[0].0, b[0].1);
      MergeWellFormed(Add(a, b[0].0, b[0].1), b[1..]);
    }
  }

  /** Recording keeps a histogram well formed and counts one sample, at its own bucket. */
  lemma RecordCounts(h: Histogram, sample: nat, at: nat)
    requires WellFormed(h) && 1 <= sample <= LATENCY_MAX_NS
    ensures WellFormed(Record(h, sample))
    ensures Total(Record(h, sample)) == Total(h) + 1
    ensures CountAt(Record(h, sample), at) == CountAt(h, at) + (if at == BucketTop(sample) then 1 else 0)
  {
    BucketTopInRange(sample);
    AddWellFormed(h, BucketTop(sample), 1);
    AddedCounts(h, BucketTop(sample), 1, at);
  }
}
