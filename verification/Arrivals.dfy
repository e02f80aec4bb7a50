/** Publishes reaching the recorder in any order, number and time, and what its report says of them. */
module Arrivals {
  import opened Arith
  import opened Slots
  import opened Histogram
  import opened Payload
  import opened Deliveries
  import opened Rec = Recorder
  import Figures
  import Statistics

  /** A publish reaching the recorder at `nowNs`. */
  datatype Arrival = Arrival(stamp: Stamp, nowNs: u64)

  function Stamps(arrivals: seq<Arrival>): (s: seq<Stamp>)
    ensures |s| == |arrivals| && forall i | 0 <= i < |s| :: s[i] == arrivals[i].stamp
  {
    if arrivals == [] then [] else Stamps(arrivals[..|arrivals| - 1]) + [arrivals[|arrivals| - 1].stamp]
  }

  function CallFor(a: Arrival): Call {
    Call(a.stamp.connId, Delivery(a.stamp.seqNo, a.stamp.scheduledNs, a.nowNs))
  }

  function CallsFor(arrivals: seq<Arrival>): (calls: seq<Call>)
    ensures |calls| == |arrivals| && forall i | 0 <= i < |calls| :: calls[i] == CallFor(arrivals[i])
  {
    if arrivals == [] then [] else CallsFor(arrivals[..|arrivals| - 1]) + [CallFor(arrivals[|arrivals| - 1])]
  }

  predicate KnownConnections(arrivals: seq<Arrival>, n: nat) {
    forall i | 0 <= i < |arrivals| :: arrivals[i].stamp.connId < n
  }

  /** The arrivals a recorder of `n` connections takes: those of a known connection, and none before it is armed. */
  function Taken(arrivals: seq<Arrival>, n: nat, armed: bool): seq<Arrival> {
    if arrivals == [] then []
    else
      var last := arrivals[|arrivals| - 1];
      Taken(arrivals[..|arrivals| - 1], n, armed) + if armed && last.stamp.connId < n then [last] else []
  }

  lemma {:induction false} TakenMeans(arrivals: seq<Arrival>, n: nat, armed: bool)
    ensures |Taken(arrivals, n, armed)| <= |arrivals| && (!armed ==> Taken(arrivals, n, armed) == [])
    ensures |Taken(arrivals, n, armed)| == |arrivals| <==> arrivals == [] || (armed && KnownConnections(arrivals, n))
    ensures |Taken(arrivals, n, armed)| == |arrivals| ==> Taken(arrivals, n, armed) == arrivals
  {
    if arrivals != [] {
      var before := arrivals[..|arrivals| - 1];
      TakenMeans(before, n, armed);
      assert arrivals == before + [arrivals[|arrivals| - 1]];
      assert KnownConnections(arrivals, n) <==>
             KnownConnections(before, n) && arrivals[|arrivals| - 1].stamp.connId < n by {
        assert forall i | 0 <= i < |before| :: before[i] == arrivals[i];
      }
    }
  }

  lemma {:induction false} TakenStep(arrivals: seq<Arrival>, i: nat, n: nat, armed: bool)
    requires i < |arrivals|
    ensures var before := Taken(arrivals[..i], n, armed);
            Taken(arrivals[..i + 1], n, armed)
            == if armed && arrivals[i].stamp.connId < n then before + [arrivals[i]] else before
  {
    assert arrivals[..i + 1][..i] == arrivals[..i];
    assert Taken(arrivals[..i], n, armed) + [] == Taken(arrivals[..i], n, armed);
  }

  /** One arrival more is one call more after those there were. */
  lemma {:induction false} CallsStep(had: seq<Call>, taken: seq<Arrival>, a: Arrival)
    ensures had + CallsFor(taken + [a]) == had + CallsFor(taken) + [CallFor(a)]
  {
    assert (taken + [a])[..|taken|] == taken;
  }

  /** An encoded stamp is a call of its connection, when that is known. */
  lemma {:induction false} EncodedIsCall(a: Arrival, payload: seq<byte>, n: nat)
    requires payload == StampBytes(a.stamp)
    ensures CallOf(payload, a.nowNs, n) == if a.stamp.connId < n then Some(CallFor(a)) else None
  {
    DecodeEncoded(a.stamp);
  }

  /** One encoded stamp handed to a recorder: a call of its connection, or foreign. */
  method DeliverOne(recorder: Recorder, a: Arrival)
    requires recorder.Valid()
    modifies recorder, recorder.shards
    ensures recorder.Valid() && recorder.armed == old(recorder.armed)
    ensures if recorder.armed.Some? && a.stamp.connId < |recorder.shards|
            then recorder.calls == old(recorder.calls) + [CallFor(a)]
                 && recorder.foreignCalls == old(recorder.foreignCalls)
            else recorder.calls == old(recorder.calls) && recorder.foreignCalls == old(recorder.foreignCalls) + 1
  {
    var payload := EncodeStamp(a.stamp);
    var bytes := payload[..];
    EncodedIsCall(a, bytes, |recorder.shards|);
    recorder.RecordDelivery(bytes, a.nowNs);
  }

  /** Handing arrivals to a recorder files those it takes under their connections; the others are foreign. */
  method DeliverAll(recorder: Recorder, arrivals: seq<Arrival>)
    requires recorder.Valid()
    modifies recorder, recorder.shards
    ensures recorder.Valid() && recorder.armed == old(recorder.armed)
    ensures var taken := Taken(arrivals, |recorder.shards|, recorder.armed.Some?);
            && recorder.calls == old(recorder.calls) + CallsFor(taken)
            && recorder.foreignCalls == old(recorder.foreignCalls) + |arrivals| - |taken|
  {
    ghost var n, armed := |recorder.shards|, recorder.armed.Some?;
    ghost var taken: seq<Arrival> := [];
    for i := 0 to |arrivals|
      invariant recorder.Valid() && recorder.armed == old(recorder.armed)
      invariant taken == Taken(arrivals[..i], n, armed)
      invariant recorder.calls == old(recorder.calls) + CallsFor(taken)
      invariant recorder.foreignCalls == old(recorder.foreignCalls) + i - |taken|
    {
      TakenStep(arrivals, i, n, armed);
      CallsStep(old(recorder.calls), taken, arrivals[i]);
      DeliverOne(recorder, arrivals[i]);
      taken := if armed && arrivals[i].stamp.connId < n then taken + [arrivals[i]] else taken;
    }
    assert arrivals[..|arrivals|] == arrivals;
  }

  // ---------------------------------------------------------------- keys

  predicate SameKey(a: Stamp, b: Stamp) {
    a.connId == b.connId && a.seqNo == b.seqNo
  }

  ghost predicate DistinctKeys(stamps: seq<Stamp>) {
    forall i, j | 0 <= i < j < |stamps| :: !SameKey(stamps[i], stamps[j])
  }

  lemma {:induction false} LastArrival(arrivals: seq<Arrival>, w: Window)
    requires arrivals != []
    ensures var last := |arrivals| - 1;
            && CallsFor(arrivals) == CallsFor(arrivals[..last]) + [CallFor(arrivals[last])]
            && Stamps(arrivals[..last]) == Stamps(arrivals)[..last]
            && StampsInWindow(Stamps(arrivals), w)
               == StampsInWindow(Stamps(arrivals[..last]), w)
                  + if w.Contains(arrivals[last].stamp.scheduledNs) then 1 else 0
  {
  }

  lemma {:induction false} FirstMeansNewKey(arrivals: seq<Arrival>, i: nat)
    requires i < |arrivals|
    ensures IsFirst(CallsFor(arrivals), i) <==> forall j | 0 <= j < i :: !SameKey(arrivals[j].stamp, arrivals[i].stamp)
  {
    var calls := CallsFor(arrivals);
    assert forall j | 0 <= j <= i :: calls[j] == CallFor(arrivals[j]);
  }

  lemma {:induction false} DistinctStep(stamps: seq<Stamp>)
    requires stamps != []
    ensures var last := |stamps| - 1;
            DistinctKeys(stamps) <==>
              DistinctKeys(stamps[..last]) && forall j | 0 <= j < last :: !SameKey(stamps[j], stamps[last])
  {
    var last := |stamps| - 1;
    if DistinctKeys(stamps[..last]) && forall j | 0 <= j < last :: !SameKey(stamps[j], stamps[last]) {
      forall i, j | 0 <= i < j < |stamps| ensures !SameKey(stamps[i], stamps[j]) {
        if j < last { assert !SameKey(stamps[..last][i], stamps[..last][j]); }
      }
    }
  }

  /** The last of some arrivals comes first exactly when its key is new. */
  lemma {:induction false} LastIsFirst(arrivals: seq<Arrival>)
    requires arrivals != []
    ensures var last := |arrivals| - 1;
            DistinctKeys(Stamps(arrivals)) <==>
              DistinctKeys(Stamps(arrivals[..last])) && IsFirst(CallsFor(arrivals), last)
  {
    var last := |arrivals| - 1;
    var stamps := Stamps(arrivals);
    LastArrival(arrivals, Window(0, 0));
    FirstMeansNewKey(arrivals, last);
    DistinctStep(stamps);
    assert (forall j | 0 <= j < last :: !SameKey(stamps[j], stamps[last]))
      <==> forall j | 0 <= j < last :: !SameKey(arrivals[j].stamp, arrivals[last].stamp);
  }

  /** One more arrival is one more first call, when its key is new and it meets the condition. */
  lemma {:induction false} OneMoreFirst(arrivals: seq<Arrival>, p: Delivery -> bool)
    requires arrivals != []
    ensures var last := |arrivals| - 1;
            |Firsts(CallsFor(arrivals), p)|
            == |Firsts(CallsFor(arrivals[..last]), p)|
               + if IsFirst(CallsFor(arrivals), last) && p(CallFor(arrivals[last]).d) then 1 else 0
  {
    var last := |arrivals| - 1;
    var before, call := CallsFor(arrivals[..last]), CallFor(arrivals[last]);
    LastArrival(arrivals, Window(0, 0));
    FirstIsNew(before, call);
    FirstsStep(before, call, p);
  }

  /** Every arrival is the first of its key exactly when their keys are distinct. */
  lemma {:induction false} DistinctAreFirst(arrivals: seq<Arrival>)
    ensures |Firsts(CallsFor(arrivals), Any())| <= |arrivals|
    ensures |Firsts(CallsFor(arrivals), Any())| == |arrivals| <==> DistinctKeys(Stamps(arrivals))
    ensures DistinctKeys(Stamps(arrivals)) ==> forall i | 0 <= i < |arrivals| :: IsFirst(CallsFor(arrivals), i)
  {
    if arrivals == [] {
      assert Firsts(CallsFor(arrivals), Any()) == {};
    } else {
      DistinctAreFirst(arrivals[..|arrivals| - 1]);
      LastIsFirst(arrivals);
      OneMoreFirst(arrivals, Any());
      if DistinctKeys(Stamps(arrivals)) { KeysAreFirst(arrivals); }
    }
  }

  lemma {:induction false} KeysAreFirst(arrivals: seq<Arrival>)
    requires DistinctKeys(Stamps(arrivals))
    ensures forall i | 0 <= i < |arrivals| :: IsFirst(CallsFor(arrivals), i)
  {
    forall i | 0 <= i < |arrivals| ensures IsFirst(CallsFor(arrivals), i) {
      forall j | 0 <= j < i
        ensures CallsFor(arrivals)[j].conn != CallsFor(arrivals)[i].conn
             || CallsFor(arrivals)[j].d.seqNo != CallsFor(arrivals)[i].d.seqNo
      {
        assert !SameKey(Stamps(arrivals)[j], Stamps(arrivals)[i]);
      }
    }
  }

  /** Of arrivals with distinct keys, none meets a condition exactly when no first call does. */
  lemma {:induction false} NoneMeets(arrivals: seq<Arrival>, p: Delivery -> bool)
    requires DistinctKeys(Stamps(arrivals))
    ensures |Firsts(CallsFor(arrivals), p)| == 0 <==> forall i | 0 <= i < |arrivals| :: !p(CallFor(arrivals[i]).d)
  {
    var calls := CallsFor(arrivals);
    KeysAreFirst(arrivals);
    if |Firsts(calls, p)| == 0 {
      forall i | 0 <= i < |arrivals| ensures !p(CallFor(arrivals[i]).d) { assert i !in Firsts(calls, p); }
    } else {
      var i :| i in Firsts(calls, p);
      assert p(CallFor(arrivals[i]).d);
    }
  }

  // ---------------------------------------------------------------- in the window

  /** Stamps scheduled inside the window. */
  function StampsInWindow(stamps: seq<Stamp>, w: Window): nat {
    if stamps == [] then 0
    else StampsInWindow(stamps[..|stamps| - 1], w) + (if w.Contains(stamps[|stamps| - 1].scheduledNs) then 1 else 0)
  }

  lemma {:induction false} StampsInWindowConcat(a: seq<Stamp>, b: seq<Stamp>, w: Window)
    ensures StampsInWindow(a + b, w) == StampsInWindow(a, w) + StampsInWindow(b, w)
    decreases |b|
  {
    if b == [] {
      assert a + b == a;
    } else {
      assert (a + b)[..|a + b| - 1] == a + b[..|b| - 1];
      StampsInWindowConcat(a, b[..|b| - 1], w);
    }
  }

  ghost function ScheduledIn(w: Window): Delivery -> bool {
    (d: Delivery) => w.Contains(d.scheduledNs)
  }

  lemma {:induction false} FirstsInWindow(arrivals: seq<Arrival>, w: Window)
    requires DistinctKeys(Stamps(arrivals))
    ensures |Firsts(CallsFor(arrivals), ScheduledIn(w))| == StampsInWindow(Stamps(arrivals), w)
  {
    if arrivals == [] {
      assert Firsts(CallsFor(arrivals), ScheduledIn(w)) == {};
    } else {
      LastArrival(arrivals, w);
      LastIsFirst(arrivals);
      FirstsInWindow(arrivals[..|arrivals| - 1], w);
      OneMoreFirst(arrivals, ScheduledIn(w));
    }
  }

  /** Nothing arrives before it is scheduled, and what is scheduled in the window is in the histogram's range. */
  predicate Timely(arrivals: seq<Arrival>, w: Window) {
    forall i | 0 <= i < |arrivals| ::
      && arrivals[i].stamp.scheduledNs <= arrivals[i].nowNs
      && (w.Contains(arrivals[i].stamp.scheduledNs) ==>
            arrivals[i].nowNs <= arrivals[i].stamp.scheduledNs + LATENCY_MAX_NS)
  }

  lemma {:induction false} TimelyIsSampled(arrivals: seq<Arrival>, w: Window)
    requires Timely(arrivals, w)
    ensures Firsts(CallsFor(arrivals), Figures.Sampled(w)) == Firsts(CallsFor(arrivals), ScheduledIn(w))
  {
  }

  lemma {:induction false} NoneUntimely(arrivals: seq<Arrival>, w: Window)
    requires DistinctKeys(Stamps(arrivals))
    ensures |Firsts(CallsFor(arrivals), TooEarly())| == 0 && |Firsts(CallsFor(arrivals), TookTooLong(w))| == 0
            <==> Timely(arrivals, w)
  {
    NoneMeets(arrivals, TooEarly());
    NoneMeets(arrivals, TookTooLong(w));
  }

  /**
    The report of any arrivals: it shows no duplicate, no clock anomaly and no latency over range exactly
    when their keys are distinct and their times in order; then it counts all of them, and one latency
    for each that is scheduled in the window.
    */
  lemma {:induction false} DeliveryMeans(arrivals: seq<Arrival>, d: DeliveryReport, w: Window)
    requires Reads(d, w, CallsFor(arrivals)) && |arrivals| <= U64_MAX
    ensures d.duplicates == 0 && d.clockAnomalies == 0 && d.latencyOverRange == 0
            <==> DistinctKeys(Stamps(arrivals)) && Timely(arrivals, w)
    ensures d.duplicates == 0 ==> d.delivered == |arrivals|
    ensures DistinctKeys(Stamps(arrivals)) && Timely(arrivals, w) ==>
              Total(d.latency) == StampsInWindow(Stamps(arrivals), w)
  {
    DistinctAreFirst(arrivals);
    if DistinctKeys(Stamps(arrivals)) {
      NoneUntimely(arrivals, w);
      FirstsInWindow(arrivals, w);
      if Timely(arrivals, w) {
        TimelyIsSampled(arrivals, w);
        Figures.TotalReads(d.latency, w, CallsFor(arrivals));
      }
    }
  }

  // ---------------------------------------------------------------- reorderings

  lemma {:induction false} SameStampsSameCount(a: seq<Stamp>, b: seq<Stamp>, w: Window)
    requires multiset(a) == multiset(b)
    ensures |a| == |b| && StampsInWindow(a, w) == StampsInWindow(b, w)
  {
    assert |multiset(a)| == |a| && |multiset(b)| == |b|;
    if a != [] {
      var i := Statistics.TakeOut(a, b);
      SameStampsSameCount(a[..|a| - 1], b[..i] + b[i + 1..], w);
      CountWithout(b, i, w);
    }
  }

  lemma {:induction false} CountWithout(b: seq<Stamp>, i: nat, w: Window)
    requires i < |b|
    ensures StampsInWindow(b, w)
         == StampsInWindow(b[..i] + b[i + 1..], w) + if w.Contains(b[i].scheduledNs) then 1 else 0
  {
    assert b == b[..i] + ([b[i]] + b[i + 1..]);
    StampsInWindowConcat(b[..i], b[i + 1..], w);
    StampsInWindowConcat(b[..i], [b[i]] + b[i + 1..], w);
    StampsInWindowConcat([b[i]], b[i + 1..], w);
    assert [b[i]][..0] == [];
  }

  lemma {:induction false} MultiplicityOfDistinct(s: seq<Stamp>, x: Stamp)
    requires DistinctKeys(s)
    ensures multiset(s)[x] <= 1
  {
    if s != [] {
      var before := s[..|s| - 1];
      assert s == before + [s[|s| - 1]];
      MultiplicityOfDistinct(before, x);
      if s[|s| - 1] == x {
        forall i | 0 <= i < |before| ensures before[i] != x { assert !SameKey(s[i], s[|s| - 1]); }
      }
    }
  }

  /** What is delivered once each has distinct keys when what was published does. */
  lemma {:induction false} DistinctCarriesOver(published: seq<Stamp>, delivered: seq<Stamp>)
    requires multiset(published) == multiset(delivered) && DistinctKeys(published)
    ensures DistinctKeys(delivered)
  {
    forall i, j | 0 <= i < j < |delivered| ensures !SameKey(delivered[i], delivered[j]) {
      var a, b := delivered[i], delivered[j];
      assert a in multiset(published) && b in multiset(published);
      var p :| 0 <= p < |published| && published[p] == a;
      var q :| 0 <= q < |published| && published[q] == b;
      if SameKey(a, b) {
        assert SameKey(published[p], published[q]) && SameKey(published[q], published[p]);
        assert p == q;
        Statistics.Repeated(delivered, i, j);
        MultiplicityOfDistinct(published, a);
      }
    }
  }

  /** Without its last stamp, what is delivered lies in what is published without that stamp. */
  lemma {:induction false} RestIsPublished(delivered: seq<Stamp>, published: seq<Stamp>, p: nat)
    requires delivered != [] && DistinctKeys(delivered) && p < |published|
    requires published[p] == delivered[|delivered| - 1]
    requires forall i | 0 <= i < |delivered| :: delivered[i] in published
    ensures forall i | 0 <= i < |delivered| - 1 :: delivered[i] in published[..p] + published[p + 1..]
  {
    var last := |delivered| - 1;
    forall i | 0 <= i < last ensures delivered[i] in published[..p] + published[p + 1..] {
      assert !SameKey(delivered[i], delivered[last]);
      var q :| 0 <= q < |published| && published[q] == delivered[i];
      assert (published[..p] + published[p + 1..])[if q < p then q else q - 1] == delivered[i];
    }
  }

  /** As many stamps with distinct keys, each of them published, are the published ones in some order. */
  lemma {:induction false} DistinctAndPublished(delivered: seq<Stamp>, published: seq<Stamp>)
    requires DistinctKeys(delivered) && |delivered| == |published|
    requires forall i | 0 <= i < |delivered| :: delivered[i] in published
    ensures multiset(delivered) == multiset(published)
    decreases |delivered|
  {
    if delivered != [] {
      var last := |delivered| - 1;
      var p :| 0 <= p < |published| && published[p] == delivered[last];
      RestIsPublished(delivered, published, p);
      DistinctAndPublished(delivered[..last], published[..p] + published[p + 1..]);
      Statistics.WithoutAt(published, p);
      assert delivered == delivered[..last] + [delivered[last]];
    }
  }
}
