/** Order statistics over exact values, and reorderings of lists. */
module Statistics {
  import opened Arith

  // ---------------------------------------------------------------- sorting

  function Insert(x: real, s: seq<real>): seq<real> {
    if s == [] || x <= s[0] then [x] + s else [s[0]] + Insert(x, s[1..])
  }

  function Sort(s: seq<real>): seq<real> {
    if s == [] then [] else Insert(s[|s| - 1], Sort(s[..|s| - 1]))
  }

  ghost predicate Ordered(s: seq<real>) {
    forall i, j | 0 <= i < j < |s| :: s[i] <= s[j]
  }

  lemma {:induction false} InsertCounts(x: real, s: seq<real>)
    ensures multiset(Insert(x, s)) == multiset(s) + multiset{x}
  {
    if s != [] && x > s[0] {
      InsertCounts(x, s[1..]);
      assert s == [s[0]] + s[1..];
    }
  }

  lemma {:induction false} InsertIsOrdered(x: real, s: seq<real>)
    requires Ordered(s)
    ensures Ordered(Insert(x, s))
  {
    if s != [] && x > s[0] {
      InsertIsOrdered(x, s[1..]);
      InsertBounded(x, s[1..], s[0]);
    }
  }

  lemma {:induction false} InsertBounded(x: real, s: seq<real>, low: real)
    requires low <= x && forall i | 0 <= i < |s| :: low <= s[i]
    ensures forall i | 0 <= i < |Insert(x, s)| :: low <= Insert(x, s)[i]
  {
    if s != [] && x > s[0] { InsertBounded(x, s[1..], low); }
  }

  lemma {:induction false} SortIsOrdered(s: seq<real>)
    ensures Ordered(Sort(s)) && multiset(Sort(s)) == multiset(s)
    ensures |Sort(s)| == |s|
  {
    if s != [] {
      SortIsOrdered(s[..|s| - 1]);
      InsertIsOrdered(s[|s| - 1], Sort(s[..|s| - 1]));
      InsertCounts(s[|s| - 1], Sort(s[..|s| - 1]));
      assert s == s[..|s| - 1] + [s[|s| - 1]];
    }
    assert |multiset(Sort(s))| == |multiset(s)|;
  }

  lemma {:induction false} OrderedIsUnique(a: seq<real>, b: seq<real>)
    requires Ordered(a) && Ordered(b) && multiset(a) == multiset(b)
    ensures a == b
  {
    assert |multiset(a)| == |multiset(b)|;
    if a != [] {
      SameFirst(a, b);
      DropFirst(a);
      DropFirst(b);
      OrderedIsUnique(a[1..], b[1..]);
      assert a == [a[0]] + a[1..] && b == [b[0]] + b[1..];
    }
  }

  lemma SameFirst(a: seq<real>, b: seq<real>)
    requires Ordered(a) && Ordered(b) && multiset(a) == multiset(b) && a != [] && b != []
    ensures a[0] == b[0]
  {
    assert a[0] in multiset(b) && b[0] in multiset(a);
  }

  lemma DropFirst(s: seq<real>)
    requires s != []
    ensures multiset(s[1..]) == multiset(s) - multiset{s[0]}
  {
    assert s == [s[0]] + s[1..];
  }

  lemma SortOfReordering(a: seq<real>, b: seq<real>)
    requires multiset(a) == multiset(b)
    ensures Sort(a) == Sort(b)
  {
    SortIsOrdered(a);
    SortIsOrdered(b);
    OrderedIsUnique(Sort(a), Sort(b));
  }

  // ---------------------------------------------------------------- median and spread

  function Median(values: seq<real>): Option<real> {
    SortIsOrdered(values);
    if values == [] then None else Some(Middle(Sort(values)))
  }

  /** The middle value of a sorted list, or the mean of its two middle values. */
  function Middle(sorted: seq<real>): real
    requires sorted != []
  {
    var n := |sorted|;
    if n % 2 == 1 then sorted[n / 2] else (sorted[n / 2 - 1] + sorted[n / 2]) / 2.0
  }

  function Width(sorted: seq<real>): real
    requires sorted != []
  {
    sorted[|sorted| - 1] - sorted[0]
  }

  /** The widest difference over the median; none when there is no median or it is 0. */
  function Spread(values: seq<real>): Option<real> {
    var m := Median(values);
    if m.None? || m.value == 0.0 then None
    else
      SortIsOrdered(values);
      Some(Width(Sort(values)) / m.value)
  }

  /** `spread`: minimum and maximum found in one pass. */
  method ComputeSpread(values: seq<real>) returns (r: Option<real>)
    ensures r == Spread(values)
  {
    var m := Median(values);
    if m.None? || m.value == 0.0 {
      return None;
    }
    var min, max := values[0], values[0];
    for i := 0 to |values|
      invariant min in values && max in values
      invariant forall j | 0 <= j < i :: min <= values[j] <= max
    {
      if values[i] < min { min := values[i]; }
      if values[i] > max { max := values[i]; }
    }
    EndsOfSort(values, min, max);
    r := Some((max - min) / m.value);
  }

  lemma EndsOfSort(values: seq<real>, min: real, max: real)
    requires min in values && max in values
    requires forall j | 0 <= j < |values| :: min <= values[j] <= max
    ensures |Sort(values)| == |values| && Sort(values)[0] == min && Sort(values)[|values| - 1] == max
  {
    var s := Sort(values);
    SortIsOrdered(values);
    assert min in multiset(s) && max in multiset(s);
    assert s[0] in multiset(values) && s[|s| - 1] in multiset(values);
  }

  lemma SpreadOfReordering(a: seq<real>, b: seq<real>)
    requires multiset(a) == multiset(b)
    ensures Spread(a) == Spread(b)
  {
    SortOfReordering(a, b);
  }

  /** Half of the values do not exceed the median, and half are not below it. */
  lemma MedianSplits(values: seq<real>, i: nat)
    requires i < |values|
    ensures var m := Median(values).value; var s := Sort(values);
            |s| == |values| && (2 * i < |values| ==> s[i] <= m) && (2 * i >= |values| - 1 ==> s[i] >= m)
    ensures var m := Median(values).value; var s := Sort(values);
            |values| % 2 == 0 ==> m - s[|values| / 2 - 1] == s[|values| / 2] - m
  {
    SortIsOrdered(values);
    MiddleSplits(Sort(values), i);
  }

  lemma MiddleSplits(s: seq<real>, i: nat)
    requires Ordered(s) && i < |s|
    ensures (2 * i < |s| ==> s[i] <= Middle(s)) && (2 * i >= |s| - 1 ==> s[i] >= Middle(s))
  {
  }

  /** No two values lie further apart than `gap`. */
  ghost predicate Close(values: seq<real>, gap: real) {
    forall i, j | 0 <= i < |values| && 0 <= j < |values| :: values[i] - values[j] <= gap
  }

  /** The gate on a positive median `m`: no two values lie further apart than the limit's share of it. */
  lemma SpreadMeaning(values: seq<real>, m: real, limit: real, gap: real)
    requires Median(values) == Some(m) && m > 0.0 && gap == limit * m
    ensures Spread(values).Some?
    ensures Spread(values).value <= limit <==> Close(values, gap)
  {
    SortIsOrdered(values);
    var low, high := Sort(values)[0], Sort(values)[|values| - 1];
    Quotient(high - low, m, limit);
    WidestGap(values, low, high, gap);
  }

  /** Over a negative median the quotient never exceeds a limit. */
  lemma NegativeMedian(values: seq<real>, m: real)
    requires Median(values) == Some(m) && m < 0.0
    ensures Spread(values).Some? && Spread(values).value <= 0.0
  {
    SortIsOrdered(values);
    NegativeQuotient(Width(Sort(values)), m);
  }

  lemma NegativeQuotient(x: real, m: real)
    requires x >= 0.0 && m < 0.0
    ensures x / m <= 0.0
  {
    assert x / m * m == x;
  }

  lemma WidestGap(values: seq<real>, low: real, high: real, gap: real)
    requires |values| > 0 && |Sort(values)| == |values| && low == Sort(values)[0] && high == Sort(values)[|values| - 1]
    ensures high - low <= gap <==> Close(values, gap)
  {
    SortIsOrdered(values);
    assert low in multiset(values) && high in multiset(values);
    var a :| 0 <= a < |values| && values[a] == high;
    var b :| 0 <= b < |values| && values[b] == low;
    forall i | 0 <= i < |values| ensures low <= values[i] <= high {
      assert values[i] in multiset(Sort(values));
    }
  }

  lemma Quotient(x: real, m: real, limit: real)
    requires m > 0.0
    ensures x / m <= limit <==> x <= limit * m
  {
    var q := x / m;
    assert x == q * m;
    if q <= limit { assert q * m <= limit * m; } else { assert q * m > limit * m; }
  }

  // ---------------------------------------------------------------- reorderings

  lemma WithoutAt<T>(s: seq<T>, i: nat)
    requires i < |s|
    ensures multiset(s[..i] + s[i + 1..]) == multiset(s) - multiset{s[i]}
  {
    assert s == s[..i] + [s[i]] + s[i + 1..];
  }

  /** The last element of a list, found in a reordering of it and taken out of both. */
  lemma TakeOut<T>(a: seq<T>, b: seq<T>) returns (i: nat)
    requires a != [] && multiset(a) == multiset(b)
    ensures i < |b| && b[i] == a[|a| - 1] && multiset(a[..|a| - 1]) == multiset(b[..i] + b[i + 1..])
  {
    var last := |a| - 1;
    assert a[last] in multiset(b);
    i :| 0 <= i < |b| && b[i] == a[last];
    WithoutAt(a, last);
    WithoutAt(b, i);
    assert a[..last] + a[last + 1..] == a[..last];
  }

  /** An element at two places counts at least twice. */
  lemma Repeated<T>(s: seq<T>, i: nat, j: nat)
    requires i < j < |s|
    ensures s[i] == s[j] ==> multiset(s)[s[i]] >= 2
  {
    assert s == s[..j] + s[j..] && s[j..] == [s[j]] + s[j + 1..];
    assert s[i] == s[..j][i] && s[i] in multiset(s[..j]);
  }

  /** The same element added on both sides keeps two pairs of lists reorderings of each other. */
  lemma OneMore<T>(a: seq<T>, b: seq<T>, c: seq<T>, d: seq<T>, x: T)
    requires multiset(a) + multiset(b) == multiset(c) + multiset(d)
    ensures multiset(a + [x]) + multiset(b) == multiset(c) + multiset(d + [x])
    ensures multiset(a) + multiset(b + [x]) == multiset(c) + multiset(d + [x])
  {
    assert multiset(a + [x]) + multiset(b) == (multiset(a) + multiset(b)) + multiset{x};
    assert multiset(a) + multiset(b + [x]) == (multiset(a) + multiset(b)) + multiset{x};
    assert multiset(c) + multiset(d + [x]) == (multiset(c) + multiset(d)) + multiset{x};
  }
}
