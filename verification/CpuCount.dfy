/**
  Counting the distinct CPUs of a taskset list without expanding it. The CPU line is cut at every
  element's bounds; a segment is counted by arithmetic, or by a k-way merge where strides overlap.
  */
module CpuCount {
  import opened Arith

  /** `a-b:s`: every `stride`-th CPU from `first` to `last`. A plain `n` or `a-b` has stride 1. */
  datatype Element = Element(first: u32, last: u32, stride: u32)

  predicate IsElement(e: Element) {
    e.first <= e.last && e.stride >= 1
  }

  /** `d` is a whole number of strides. */
  predicate Whole(d: nat, s: nat)
    requires s >= 1
  {
    d % s == 0
  }

  /** `cpu` lies on the progression of `step` from `from`. */
  predicate On(from: nat, step: nat, cpu: nat)
    requires step >= 1
  {
    from <= cpu && Whole(cpu - from, step)
  }

  predicate Names(e: Element, cpu: nat) {
    IsElement(e) && cpu <= e.last && On(e.first, e.stride, cpu)
  }

  ghost predicate Named(elements: seq<Element>, cpu: nat) {
    exists i | 0 <= i < |elements| :: Names(elements[i], cpu)
  }

  /** The affinity mask a list stands for. */
  ghost function Mask(elements: seq<Element>): set<nat> {
    set cpu: nat | cpu <= U32_MAX && Named(elements, cpu)
  }

  ghost function MaskIn(elements: seq<Element>, lo: nat, hi: nat): set<nat> {
    set cpu: nat | cpu < hi && lo <= cpu && Named(elements, cpu)
  }

  // ---------------------------------------------------------------- progressions

  lemma {:induction false} WholeStep(d: nat, s: nat)
    requires s >= 1
    ensures Whole(d + s, s) == Whole(d, s)
    ensures d < s ==> (Whole(d, s) <==> d == 0)
  {
    var q := d / s;
    assert d == q * s + d % s;
    assert d + s == (q + 1) * s + d % s;
    RemainderOf(d + s, s, q + 1, d % s);
    if d < s { RemainderOf(d, s, 0, d); }
  }

  lemma {:induction false} WholeSum(a: nat, k: nat, s: nat)
    requires s >= 1
    ensures Whole(a + k * s, s) == Whole(a, s)
  {
    if k > 0 {
      WholeSum(a, k - 1, s);
      assert a + k * s == a + (k - 1) * s + s;
      WholeStep(a + (k - 1) * s, s);
    }
  }

  /** First member of the progression from `a` that is at or after `lo`. */
  function FirstFrom(a: nat, s: nat, lo: nat): (first: nat)
    requires s >= 1 && a <= lo
    ensures lo <= first
  {
    BelowCeil(lo - a, s, DivCeil(lo - a, s));
    a + DivCeil(lo - a, s) * s
  }

  lemma FirstFromIsFirst(a: nat, s: nat, lo: nat, cpu: nat)
    requires s >= 1 && a <= lo <= cpu
    ensures var first := FirstFrom(a, s, lo);
            On(a, s, cpu) <==> On(first, s, cpu)
  {
    var k := DivCeil(lo - a, s);
    var first := FirstFrom(a, s, lo);
    if first <= cpu {
      WholeSum(cpu - first, k, s);
    } else {
      BelowCeil(lo - a, s, k - 1);
      assert (k - 1) * s == k * s - s;
      WholeSum(cpu - (a + (k - 1) * s), k - 1, s);
      WholeStep(cpu - (a + (k - 1) * s), s);
    }
  }

  ghost function Members(first: nat, s: nat, hi: nat): set<nat>
    requires s >= 1
  {
    set cpu: nat | cpu < hi && On(first, s, cpu)
  }

  lemma {:induction false} MembersSize(first: nat, s: nat, hi: nat)
    requires s >= 1
    ensures |Members(first, s, hi)| == if first < hi then (hi - 1 - first) / s + 1 else 0
    decreases hi - first
  {
    if first >= hi {
      assert Members(first, s, hi) == {};
    } else {
      MembersSize(first + s, s, hi);
      MembersStep(first, s, hi);
      QuotientStep(hi - 1 - first, s);
    }
  }

  lemma MembersStep(first: nat, s: nat, hi: nat)
    requires s >= 1 && first < hi
    ensures Members(first, s, hi) == {first} + Members(first + s, s, hi)
    ensures first !in Members(first + s, s, hi)
  {
    forall cpu: nat | first < cpu < hi
      ensures On(first, s, cpu) <==> On(first + s, s, cpu)
    {
      if first + s <= cpu {
        WholeStep(cpu - (first + s), s);
      } else {
        WholeStep(cpu - first, s);
      }
    }
    WholeStep(0, s);
  }

  lemma QuotientStep(d: nat, s: nat)
    requires s >= 1
    ensures d / s == if d < s then 0 else (d - s) / s + 1
  {
    if d >= s {
      var q := (d - s) / s;
      assert d - s == q * s + (d - s) % s;
      assert d == (q + 1) * s + (d - s) % s;
      QuotientIsUnique(d, s, q + 1, (d - s) % s);
    } else {
      QuotientIsUnique(d, s, 0, d);
    }
  }

  lemma QuotientIsUnique(n: nat, s: nat, q: nat, r: nat)
    requires s >= 1 && r < s && n == q * s + r
    ensures n / s == q
  {
    var q' := n / s;
    assert n == q' * s + n % s;
    MulOrder(q, q', s);
    MulOrder(q', q, s);
  }

  // ---------------------------------------------------------------- one segment

  /** A stride that spans the whole segment: where it starts and how far it steps. */
  datatype Stride = Stride(from: nat, step: nat)

  ghost predicate Spans(active: seq<Stride>, lo: nat) {
    forall i | 0 <= i < |active| :: active[i].step >= 1 && active[i].from <= lo
  }

  ghost predicate Hit(active: seq<Stride>, lo: nat, cpu: nat)
    requires Spans(active, lo) && lo <= cpu
  {
    exists i | 0 <= i < |active| :: On(active[i].from, active[i].step, cpu)
  }

  ghost function Hits(active: seq<Stride>, lo: nat, hi: nat): set<nat>
    requires Spans(active, lo)
  {
    set cpu: nat | cpu < hi && lo <= cpu && Hit(active, lo, cpu)
  }

  method SegmentCount(active: seq<Stride>, lo: nat, hi: nat) returns (count: nat)
    requires Spans(active, lo) && lo < hi
    ensures count == |Hits(active, lo, hi)|
  {
    if active == [] {
      assert Hits(active, lo, hi) == {};
      return 0;
    }
    if i :| 0 <= i < |active| && active[i].step == 1 {
      PlainRangeHitsAll(active, lo, hi, i);
      return hi - lo;
    }
    if |active| == 1 {
      var Stride(a, s) := active[0];
      var first := FirstFrom(a, s, lo);
      SingleStrideHits(active, lo, hi);
      MembersSize(first, s, hi);
      return if first < hi then (hi - 1 - first) / s + 1 else 0;
    }
    count := MergeCount(active, lo, hi);
  }

  lemma PlainRangeHitsAll(active: seq<Stride>, lo: nat, hi: nat, i: nat)
    requires Spans(active, lo) && lo < hi && i < |active| && active[i].step == 1
    ensures |Hits(active, lo, hi)| == hi - lo
  {
    forall cpu: nat | lo <= cpu ensures Hit(active, lo, cpu) {
      RemainderOf(cpu - active[i].from, 1, cpu - active[i].from, 0);
      assert On(active[i].from, active[i].step, cpu);
    }
    IntervalSize(lo, hi, Hits(active, lo, hi));
  }

  lemma SingleStrideHits(active: seq<Stride>, lo: nat, hi: nat)
    requires Spans(active, lo) && |active| == 1
    ensures var Stride(a, s) := active[0];
            Hits(active, lo, hi) == Members(FirstFrom(a, s, lo), s, hi)
  {
    var Stride(a, s) := active[0];
    forall cpu: nat | lo <= cpu
      ensures Hit(active, lo, cpu) <==> On(FirstFrom(a, s, lo), s, cpu)
    {
      FirstFromIsFirst(a, s, lo, cpu);
      assert Hit(active, lo, cpu) <==> On(active[0].from, active[0].step, cpu);
    }
  }

  // ---------------------------------------------------------------- the k-way merge

  /** A heap entry: the next CPU of a stride, and the stride. */
  datatype Entry = Entry(cpu: nat, step: nat)

  predicate Reaches(q: Entry, cpu: nat) {
    q.step >= 1 && On(q.cpu, q.step, cpu)
  }

  function Weight(q: Entry, hi: nat): (w: nat)
    ensures w >= 1
  {
    if q.cpu < hi then hi - q.cpu + 1 else 1
  }

  function HeapWeight(next: seq<Entry>, hi: nat): nat {
    if next == [] then 0 else Weight(next[0], hi) + HeapWeight(next[1..], hi)
  }

  lemma {:induction false} HeapWeightPop(next: seq<Entry>, k: nat, hi: nat)
    requires k < |next|
    ensures HeapWeight(next, hi) == Weight(next[k], hi) + HeapWeight(next[..k] + next[k + 1..], hi)
  {
    if k == 0 {
      assert next[..0] + next[1..] == next[1..];
    } else {
      HeapWeightPop(next[1..], k - 1, hi);
      var rest := next[..k] + next[k + 1..];
      assert rest[1..] == next[1..][..k - 1] + next[1..][k..];
    }
  }

  lemma {:induction false} HeapWeightPush(next: seq<Entry>, q: Entry, hi: nat)
    ensures HeapWeight(next + [q], hi) == HeapWeight(next, hi) + Weight(q, hi)
  {
    if next != [] {
      HeapWeightPush(next[1..], q, hi);
      assert (next + [q])[1..] == next[1..] + [q];
    }
  }

  /** Where the smallest entry of a heap sits. */
  method MinIndex(next: seq<Entry>) returns (k: nat)
    requires next != []
    ensures k < |next|
    ensures forall i | 0 <= i < |next| :: next[k].cpu <= next[i].cpu
  {
    k := 0;
    for i := 1 to |next|
      invariant k < |next|
      invariant forall j | 0 <= j < i :: next[k].cpu <= next[j].cpu
    {
      if next[i].cpu < next[k].cpu || (next[i].cpu == next[k].cpu && next[i].step < next[k].step) {
        k := i;
      }
    }
  }

  /** Every entry steps over hits only, and none has fallen behind `seen`. */
  ghost predicate Sound(active: seq<Stride>, lo: nat, next: seq<Entry>, seen: nat)
    requires Spans(active, lo)
  {
    forall i | 0 <= i < |next| ::
      && next[i].step >= 1 && lo <= next[i].cpu && seen <= next[i].cpu + 1
      && forall cpu: nat | Reaches(next[i], cpu) :: lo <= cpu && Hit(active, lo, cpu)
  }

  /** Every hit not yet counted is still ahead of some entry. */
  ghost predicate Complete(active: seq<Stride>, lo: nat, hi: nat, next: seq<Entry>, seen: nat)
    requires Spans(active, lo)
  {
    forall cpu: nat | lo <= cpu && seen <= cpu < hi && Hit(active, lo, cpu) ::
      exists i | 0 <= i < |next| :: Reaches(next[i], cpu)
  }

  /** The heap accounts for every hit from `seen` on. */
  ghost predicate Merging(active: seq<Stride>, lo: nat, hi: nat, next: seq<Entry>, seen: nat)
    requires Spans(active, lo)
  {
    Sound(active, lo, next, seen) && Complete(active, lo, hi, next, seen)
  }

  method StartHeap(active: seq<Stride>, lo: nat, ghost hi: nat) returns (next: seq<Entry>)
    requires Spans(active, lo)
    ensures Merging(active, lo, hi, next, lo)
  {
    next := [];
    for i := 0 to |active|
      invariant |next| == i
      invariant forall j | 0 <= j < i :: next[j] == Entry(FirstFrom(active[j].from, active[j].step, lo), active[j].step)
    {
      next := next + [Entry(FirstFrom(active[i].from, active[i].step, lo), active[i].step)];
    }
    forall i, cpu: nat | 0 <= i < |next| && lo <= cpu
      ensures On(active[i].from, active[i].step, cpu) <==> Reaches(next[i], cpu)
    {
      FirstFromIsFirst(active[i].from, active[i].step, lo, cpu);
    }
  }

  method MergeCount(active: seq<Stride>, lo: nat, hi: nat) returns (count: nat)
    requires Spans(active, lo) && lo < hi
    ensures count == |Hits(active, lo, hi)|
  {
    var next := StartHeap(active, lo, hi);
    count := 0;
    var last: Option<nat> := None;
    ghost var seen := lo;
    assert Hits(active, lo, lo) == {};
    while next != []
      invariant lo <= seen <= hi && (last.None? ==> seen == lo) && (last.Some? ==> seen == last.value + 1)
      invariant Merging(active, lo, hi, next, seen)
      invariant count == |Hits(active, lo, seen)|
      decreases HeapWeight(next, hi)
    {
      var k := MinIndex(next);
      var q := next[k];
      var rest := next[..k] + next[k + 1..];
      if q.cpu >= hi {
        DropEntry(active, lo, hi, next, k, seen);
        next := rest;
      } else {
        if last != Some(q.cpu) {
          CountEntry(active, lo, hi, next, k, seen);
          count := count + 1;
          last := Some(q.cpu);
        }
        AdvanceEntry(active, lo, hi, next, k, seen);
        seen := q.cpu + 1;
        next := rest + [Entry(q.cpu + q.step, q.step)];
      }
    }
    NothingAhead(active, lo, hi, seen);
  }

  lemma NothingAhead(active: seq<Stride>, lo: nat, hi: nat, seen: nat)
    requires Spans(active, lo) && lo <= seen <= hi && Merging(active, lo, hi, [], seen)
    ensures Hits(active, lo, seen) == Hits(active, lo, hi)
  {
  }

  lemma Survivor(next: seq<Entry>, k: nat, cpu: nat)
    requires k < |next| && exists i | 0 <= i < |next| :: Reaches(next[i], cpu)
    requires !Reaches(next[k], cpu)
    ensures var rest := next[..k] + next[k + 1..];
            exists i | 0 <= i < |rest| :: Reaches(rest[i], cpu)
  {
    var i :| 0 <= i < |next| && Reaches(next[i], cpu);
    var rest := next[..k] + next[k + 1..];
    assert rest[if i < k then i else i - 1] == next[i];
  }

  lemma DropEntry(active: seq<Stride>, lo: nat, hi: nat, next: seq<Entry>, k: nat, seen: nat)
    requires Spans(active, lo) && k < |next| && next[k].cpu >= hi
    requires Merging(active, lo, hi, next, seen)
    ensures var rest := next[..k] + next[k + 1..];
            && Merging(active, lo, hi, rest, seen)
            && HeapWeight(rest, hi) < HeapWeight(next, hi)
  {
    var rest := next[..k] + next[k + 1..];
    HeapWeightPop(next, k, hi);
    forall cpu: nat | lo <= cpu && seen <= cpu < hi && Hit(active, lo, cpu)
      ensures exists i | 0 <= i < |rest| :: Reaches(rest[i], cpu)
    {
      Survivor(next, k, cpu);
    }
  }

  /** The smallest entry is the next hit: nothing between what was counted and it. */
  lemma CountEntry(active: seq<Stride>, lo: nat, hi: nat, next: seq<Entry>, k: nat, seen: nat)
    requires Spans(active, lo) && k < |next| && lo <= seen <= next[k].cpu < hi
    requires forall i | 0 <= i < |next| :: next[k].cpu <= next[i].cpu
    requires Merging(active, lo, hi, next, seen)
    ensures |Hits(active, lo, next[k].cpu + 1)| == |Hits(active, lo, seen)| + 1
  {
    var cpu := next[k].cpu;
    WholeStep(0, next[k].step);
    assert Reaches(next[k], cpu);
    assert Hits(active, lo, cpu + 1) == Hits(active, lo, seen) + {cpu};
  }

  lemma AdvanceEntry(active: seq<Stride>, lo: nat, hi: nat, next: seq<Entry>, k: nat, seen: nat)
    requires Spans(active, lo) && k < |next| && seen <= next[k].cpu + 1
    requires forall i | 0 <= i < |next| :: next[k].cpu <= next[i].cpu
    requires Merging(active, lo, hi, next, seen)
    ensures var q := next[k];
            var moved := next[..k] + next[k + 1..] + [Entry(q.cpu + q.step, q.step)];
            && Merging(active, lo, hi, moved, q.cpu + 1)
            && (q.cpu < hi ==> HeapWeight(moved, hi) < HeapWeight(next, hi))
  {
    var q := next[k];
    var q' := Entry(q.cpu + q.step, q.step);
    var rest := next[..k] + next[k + 1..];
    var moved := rest + [q'];
    HeapWeightPop(next, k, hi);
    HeapWeightPush(rest, q', hi);
    forall cpu: nat | q.cpu < cpu ensures Reaches(q', cpu) <==> Reaches(q, cpu) {
      if q'.cpu <= cpu {
        WholeStep(cpu - q'.cpu, q.step);
      } else {
        WholeStep(cpu - q.cpu, q.step);
      }
    }
    forall cpu: nat | lo <= cpu && q.cpu + 1 <= cpu < hi && Hit(active, lo, cpu)
      ensures exists i | 0 <= i < |moved| :: Reaches(moved[i], cpu)
    {
      if Reaches(q, cpu) {
        assert Reaches(moved[|rest|], cpu);
      } else {
        Survivor(next, k, cpu);
        var i :| 0 <= i < |rest| && Reaches(rest[i], cpu);
        assert moved[i] == rest[i];
      }
    }
  }

  // ---------------------------------------------------------------- the sweep

  predicate IsCut(e: Element, x: nat) {
    x == e.first || x == e.last + 1
  }

  /** Both bounds of every element, sorted and without repeats. */
  method Cuts(elements: seq<Element>) returns (cuts: seq<nat>)
    ensures Increasing(cuts) && (elements != [] ==> cuts != [])
    ensures forall i, x: nat | 0 <= i < |elements| && IsCut(elements[i], x) :: x in cuts
    ensures forall x | x in cuts :: exists i | 0 <= i < |elements| :: IsCut(elements[i], x)
  {
    cuts := [];
    for n := 0 to |elements|
      invariant Increasing(cuts) && (n > 0 ==> cuts != [])
      invariant forall i, x: nat | 0 <= i < n && IsCut(elements[i], x) :: x in cuts
      invariant forall x | x in cuts :: exists i | 0 <= i < |elements| :: IsCut(elements[i], x)
    {
      assert IsCut(elements[n], elements[n].first) && IsCut(elements[n], elements[n].last + 1);
      cuts := InsertCut(cuts, elements[n].first);
      cuts := InsertCut(cuts, elements[n].last + 1);
    }
  }

  method InsertCut(cuts: seq<nat>, x: nat) returns (r: seq<nat>)
    requires Increasing(cuts)
    ensures Increasing(r) && r != [] && forall y: nat :: y in r <==> y in cuts || y == x
  {
    var i := 0;
    while i < |cuts| && cuts[i] < x
      invariant i <= |cuts| && forall j | 0 <= j < i :: cuts[j] < x
    {
      i := i + 1;
    }
    if i < |cuts| && cuts[i] == x {
      return cuts;
    }
    r := cuts[..i] + [x] + cuts[i..];
    InsertedAt(cuts, i, x);
  }

  lemma InsertedAt(cuts: seq<nat>, i: nat, x: nat)
    requires Increasing(cuts) && i <= |cuts|
    requires (forall j | 0 <= j < i :: cuts[j] < x) && (forall j | i <= j < |cuts| :: x < cuts[j])
    ensures Increasing(cuts[..i] + [x] + cuts[i..])
    ensures forall y: nat :: y in cuts[..i] + [x] + cuts[i..] <==> y in cuts || y == x
  {
    assert cuts == cuts[..i] + cuts[i..];
  }

  /** The elements that cover `[lo, hi)` whole. */
  method ActiveStrides(elements: seq<Element>, lo: nat, hi: nat) returns (active: seq<Stride>)
    requires forall i | 0 <= i < |elements| :: IsElement(elements[i])
    requires lo < hi && NoCutInside(elements, lo, hi)
    ensures Spans(active, lo) && Hits(active, lo, hi) == MaskIn(elements, lo, hi)
  {
    active := [];
    assert elements[..0] == [];
    assert Hits(active, lo, hi) == {} == MaskIn(elements[..0], lo, hi);
    for n := 0 to |elements|
      invariant Spans(active, lo) && Hits(active, lo, hi) == MaskIn(elements[..n], lo, hi)
    {
      var Element(a, b, s) := elements[n];
      ghost var before := active;
      if a <= lo && hi <= b + 1 {
        active := active + [Stride(a, s)];
        AddStride(before, Stride(a, s), lo, hi);
      }
      AddElement(elements, n, lo, hi);
    }
    assert elements[..|elements|] == elements;
  }

  ghost predicate NoCutInside(elements: seq<Element>, lo: nat, hi: nat) {
    forall i, x: nat | 0 <= i < |elements| && IsCut(elements[i], x) :: x <= lo || hi <= x
  }

  lemma AddStride(active: seq<Stride>, t: Stride, lo: nat, hi: nat)
    requires Spans(active, lo) && t.step >= 1 && t.from <= lo
    ensures Hits(active + [t], lo, hi)
         == Hits(active, lo, hi) + set cpu: nat | cpu < hi && lo <= cpu && On(t.from, t.step, cpu)
  {
    var more := active + [t];
    forall cpu: nat | lo <= cpu
      ensures Hit(more, lo, cpu) <==> Hit(active, lo, cpu) || On(t.from, t.step, cpu)
    {
      assert more[|active|] == t;
      if Hit(active, lo, cpu) {
        var i :| 0 <= i < |active| && On(active[i].from, active[i].step, cpu);
        assert more[i] == active[i];
      }
    }
  }

  lemma AddElement(elements: seq<Element>, n: nat, lo: nat, hi: nat)
    requires n < |elements| && IsElement(elements[n]) && lo < hi && NoCutInside(elements, lo, hi)
    ensures MaskIn(elements[..n + 1], lo, hi) == MaskIn(elements[..n], lo, hi)
         + set cpu: nat | cpu < hi && lo <= cpu && Names(elements[n], cpu)
    ensures forall cpu: nat | lo <= cpu < hi :: Names(elements[n], cpu) <==>
              && elements[n].first <= lo && hi <= elements[n].last + 1
              && On(elements[n].first, elements[n].stride, cpu)
  {
    var e := elements[n];
    assert IsCut(e, e.first) && IsCut(e, e.last + 1);
    forall cpu: nat ensures Named(elements[..n + 1], cpu) <==> Named(elements[..n], cpu) || Names(e, cpu) {
      assert elements[..n + 1][n] == e;
      if Named(elements[..n], cpu) {
        var i :| 0 <= i < n && Names(elements[..n][i], cpu);
        assert elements[..n + 1][i] == elements[..n][i];
      }
    }
  }

  lemma SplitMask(elements: seq<Element>, lo: nat, mid: nat, hi: nat)
    requires lo <= mid <= hi
    ensures |MaskIn(elements, lo, hi)| == |MaskIn(elements, lo, mid)| + |MaskIn(elements, mid, hi)|
  {
    var a, b := MaskIn(elements, lo, mid), MaskIn(elements, mid, hi);
    assert MaskIn(elements, lo, hi) == a + b && a !! b;
  }

  /** Outside the outermost cuts no element names a CPU. */
  lemma CutsBoundMask(elements: seq<Element>, cuts: seq<nat>)
    requires forall i | 0 <= i < |elements| :: IsElement(elements[i])
    requires Increasing(cuts) && cuts != []
    requires forall i, x: nat | 0 <= i < |elements| && IsCut(elements[i], x) :: x in cuts
    ensures MaskIn(elements, cuts[0], cuts[|cuts| - 1]) == Mask(elements)
  {
    forall cpu: nat | Named(elements, cpu) ensures cuts[0] <= cpu < cuts[|cuts| - 1] && cpu <= U32_MAX {
      var i :| 0 <= i < |elements| && Names(elements[i], cpu);
      var e := elements[i];
      assert IsCut(e, e.first) && IsCut(e, e.last + 1);
      assert e.first in cuts && e.last + 1 in cuts;
      var p :| 0 <= p < |cuts| && cuts[p] == e.first;
      var q :| 0 <= q < |cuts| && cuts[q] == e.last + 1;
      assert cuts[0] <= cuts[p] && cuts[q] <= cuts[|cuts| - 1];
    }
  }

  lemma NeighboursHoldNoCut(elements: seq<Element>, cuts: seq<nat>, n: nat)
    requires Increasing(cuts) && n + 1 < |cuts|
    requires forall i, x: nat | 0 <= i < |elements| && IsCut(elements[i], x) :: x in cuts
    ensures NoCutInside(elements, cuts[n], cuts[n + 1])
  {
    forall i, x: nat | 0 <= i < |elements| && IsCut(elements[i], x) ensures x <= cuts[n] || cuts[n + 1] <= x {
      assert x in cuts;
      var p :| 0 <= p < |cuts| && cuts[p] == x;
      assert p <= n || n + 1 <= p;
    }
  }

  /** `cpu_count`: the size of the mask, capped at what a `u32` holds. */
  method CpuCount(elements: seq<Element>) returns (count: u32)
    requires forall i | 0 <= i < |elements| :: IsElement(elements[i])
    ensures count == Min(|Mask(elements)|, U32_MAX)
  {
    var cuts := Cuts(elements);
    var total := 0;
    if cuts == [] {
      assert Mask(elements) == {};
      return 0;
    }
    assert MaskIn(elements, cuts[0], cuts[0]) == {};
    for n := 0 to |cuts| - 1
      invariant total == |MaskIn(elements, cuts[0], cuts[n])|
    {
      NeighboursHoldNoCut(elements, cuts, n);
      var active := ActiveStrides(elements, cuts[n], cuts[n + 1]);
      var segment := SegmentCount(active, cuts[n], cuts[n + 1]);
      SplitMask(elements, cuts[0], cuts[n], cuts[n + 1]);
      total := total + segment;
    }
    CutsBoundMask(elements, cuts);
    return if total <= U32_MAX then total else U32_MAX;
  }
}
