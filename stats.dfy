/** The batch statistics the cleaning and flagging stages use: pandas
    `Series.median()` and `Series.quantile(p)` (linear interpolation) over the
    values that are present. */
module Stats {
  import opened Basics

  predicate Sorted(s: seq<real>)
  {
    forall i, j :: 0 <= i < j < |s| ==> s[i] <= s[j]
  }

  function Insert(x: real, s: seq<real>): (r: seq<real>)
    ensures |r| == |s| + 1
    ensures multiset(r) == multiset(s) + multiset{x}
  {
    if s == [] || x <= s[0] then [x] + s
    else
      assert s == [s[0]] + s[1..];
      [s[0]] + Insert(x, s[1..])
  }

  lemma {:induction false} InsertSorted(x: real, s: seq<real>)
    requires Sorted(s)
    ensures Sorted(Insert(x, s))
  {
    if s != [] && x > s[0] {
      var rest := Insert(x, s[1..]);
      InsertSorted(x, s[1..]);
      forall k | 0 <= k < |rest| ensures s[0] <= rest[k] {
        assert rest[k] in multiset(rest);
        assert rest[k] in multiset(s[1..]) || rest[k] == x;
      }
    }
  }

  /** The values in ascending order (a permutation of the input). */
  function Sort(xs: seq<real>): (r: seq<real>)
    ensures |r| == |xs|
    ensures Sorted(r)
    ensures multiset(r) == multiset(xs)
  {
    if xs == [] then []
    else
      assert xs == [xs[0]] + xs[1..];
      InsertSorted(xs[0], Sort(xs[1..]));
      Insert(xs[0], Sort(xs[1..]))
  }

  /** A sorted sequence is determined by its multiset of values. */
  lemma {:induction false} SortedUnique(a: seq<real>, b: seq<real>)
    requires Sorted(a) && Sorted(b)
    requires multiset(a) == multiset(b)
    ensures a == b
  {
    if a == [] {
      assert |multiset(b)| == 0;
    } else {
      assert |b| == |multiset(b)| == |multiset(a)| == |a|;
      SortedHeads(a, b);
      assert a == [a[0]] + a[1..] && b == [b[0]] + b[1..];
      assert multiset(a[1..]) == multiset(a) - multiset{a[0]};
      assert multiset(b[1..]) == multiset(b) - multiset{b[0]};
      SortedUnique(a[1..], b[1..]);
    }
  }

  /** Two sorted arrangements of the same values start with the same value. */
  lemma SortedHeads(a: seq<real>, b: seq<real>)
    requires Sorted(a) && Sorted(b) && |a| > 0 && |b| > 0
    requires multiset(a) == multiset(b)
    ensures a[0] == b[0]
  {
    assert a[0] in multiset(b) && b[0] in multiset(a);
    var i :| 0 <= i < |a| && a[i] == b[0];
    var j :| 0 <= j < |b| && b[j] == a[0];
    assert a[0] <= a[i] && b[0] <= b[j];
  }

  /** The same values in another order sort to the same sequence. */
  lemma SortOrderFree(a: seq<real>, b: seq<real>)
    requires multiset(a) == multiset(b)
    ensures Sort(a) == Sort(b)
  {
    SortedUnique(Sort(a), Sort(b));
  }

  /** Number of values strictly below / strictly above `m`. */
  function CountBelow(s: seq<real>, m: real): nat
  {
    if s == [] then 0 else (if s[0] < m then 1 else 0) + CountBelow(s[1..], m)
  }

  function CountAbove(s: seq<real>, m: real): nat
  {
    if s == [] then 0 else (if s[0] > m then 1 else 0) + CountAbove(s[1..], m)
  }

  lemma {:induction false} InsertCounts(x: real, s: seq<real>, m: real)
    ensures CountBelow(Insert(x, s), m) == CountBelow([x] + s, m)
    ensures CountAbove(Insert(x, s), m) == CountAbove([x] + s, m)
  {
    if s == [] || x <= s[0] {
    } else {
      InsertCounts(x, s[1..], m);
      assert ([s[0]] + Insert(x, s[1..]))[1..] == Insert(x, s[1..]);
      assert ([x] + s)[1..] == s;
      assert ([x] + s[1..])[1..] == s[1..];
    }
  }

  lemma {:induction false} SortCounts(xs: seq<real>, m: real)
    ensures CountBelow(Sort(xs), m) == CountBelow(xs, m)
    ensures CountAbove(Sort(xs), m) == CountAbove(xs, m)
  {
    if xs != [] {
      SortCounts(xs[1..], m);
      InsertCounts(xs[0], Sort(xs[1..]), m);
      assert ([xs[0]] + Sort(xs[1..]))[1..] == Sort(xs[1..]);
    }
  }

  /** Every value from position `k` on is at least `m`, so at most `k` are below it. */
  lemma {:induction false} CountBelowPrefix(s: seq<real>, m: real, k: nat)
    requires k <= |s|
    requires forall i :: k <= i < |s| ==> s[i] >= m
    ensures CountBelow(s, m) <= k
  {
    if s != [] {
      CountBelowPrefix(s[1..], m, if k == 0 then 0 else k - 1);
    }
  }

  /** Every value before position `k` is at most `m`, so at most `|s| - k` are above it. */
  lemma {:induction false} CountAboveSuffix(s: seq<real>, m: real, k: nat)
    requires k <= |s|
    requires forall i :: 0 <= i < k ==> s[i] <= m
    ensures CountAbove(s, m) <= |s| - k
  {
    if s != [] {
      CountAboveSuffix(s[1..], m, if k == 0 then 0 else k - 1);
    }
  }

  /** The middle value, or the mean of the two middle values for an even count. */
  function MedianOfSorted(s: seq<real>): real
    requires |s| > 0
  {
    var h := |s| / 2;
    if |s| % 2 == 1 then s[h] else (s[h - 1] + s[h]) / 2.0
  }

  /** `Series.median()` over the present values; NaN (None) when there are none. */
  function Median(xs: seq<real>): (r: Option<real>)
    ensures r.Some? <==> |xs| > 0
  {
    if xs == [] then None else Some(MedianOfSorted(Sort(xs)))
  }

  /** The median splits the values in halves: at most half lie strictly below
      it and at most half strictly above it. */
  lemma MedianBalanced(xs: seq<real>)
    requires |xs| > 0
    ensures CountBelow(xs, Median(xs).value) <= |xs| / 2
    ensures CountAbove(xs, Median(xs).value) <= |xs| / 2
  {
    SortCounts(xs, Median(xs).value);
    SortedMedianBalanced(Sort(xs));
  }

  lemma SortedMedianBalanced(s: seq<real>)
    requires |s| > 0 && Sorted(s)
    ensures CountBelow(s, MedianOfSorted(s)) <= |s| / 2
    ensures CountAbove(s, MedianOfSorted(s)) <= |s| / 2
  {
    var m := MedianOfSorted(s);
    var h := |s| / 2;
    if |s| % 2 == 1 {
      CountBelowPrefix(s, m, h);
      CountAboveSuffix(s, m, h + 1);
    } else {
      assert s[h - 1] <= m <= s[h];
      CountBelowPrefix(s, m, h);
      CountAboveSuffix(s, m, h);
    }
  }

  /** The median over any ascending arrangement `s` of the values: the middle
      value for an odd count, the mean of the two middle values for an even
      one. */
  lemma MedianIsMiddle(xs: seq<real>, s: seq<real>)
    requires |xs| > 0 && Sorted(s) && multiset(s) == multiset(xs)
    ensures |s| == |xs|
    ensures var h := |s| / 2;
            Median(xs).value == if |s| % 2 == 1 then s[h] else (s[h - 1] + s[h]) / 2.0
  {
    assert |s| == |multiset(s)| == |multiset(xs)| == |xs|;
    SortedUnique(s, Sort(xs));
  }

  /** The median lies between the smallest and the largest value. */
  lemma MedianWithinRange(xs: seq<real>)
    requires |xs| > 0
    ensures exists i :: 0 <= i < |xs| && xs[i] <= Median(xs).value
    ensures exists j :: 0 <= j < |xs| && Median(xs).value <= xs[j]
  {
    var s := Sort(xs);
    var h := |s| / 2;
    assert s[h] in multiset(xs) && s[h - (1 - |s| % 2)] in multiset(xs);
    assert s[h] in xs && s[h - (1 - |s| % 2)] in xs;
  }

  /** Row order does not matter to the median. */
  lemma MedianOrderFree(a: seq<real>, b: seq<real>)
    requires multiset(a) == multiset(b)
    ensures Median(a) == Median(b)
  {
    SortOrderFree(a, b);
    assert |a| == |multiset(a)| == |multiset(b)| == |b|;
  }

  /** numpy's "linear" method: interpolate between the order statistics
      around position `p * (n - 1)`. */
  function QuantileOfSorted(s: seq<real>, p: real): real
    requires |s| > 0 && 0.0 <= p <= 1.0
  {
    FloorBounds(p, |s| - 1);
    Interpolate(s, p * (|s| - 1) as real)
  }

  /** The value at the fractional position `pos` of `s`, on the straight line
      between its two neighbouring entries. */
  function Interpolate(s: seq<real>, pos: real): real
    requires |s| > 0 && 0.0 <= pos <= (|s| - 1) as real
  {
    var lo := pos.Floor;
    var frac := pos - lo as real;
    if lo + 1 < |s| then Lerp(s[lo], s[lo + 1], frac) else s[lo]
  }

  /** The point at fraction `f` of the way from `a` to `b`. */
  function Lerp(a: real, b: real, f: real): real
  {
    a + f * (b - a)
  }

  lemma FloorBounds(p: real, k: nat)
    requires 0.0 <= p <= 1.0
    ensures 0.0 <= p * k as real <= k as real
    ensures 0 <= (p * k as real).Floor <= k
    ensures 0.0 <= p * k as real - (p * k as real).Floor as real < 1.0
  {
    var pos := p * k as real;
    MulNonneg(p, k as real);
    MulNonneg(1.0 - p, k as real);
    assert 0.0 <= pos <= k as real;
    assert pos.Floor as real <= pos < pos.Floor as real + 1.0;
  }

  lemma MulNonneg(x: real, y: real)
    requires x >= 0.0 && y >= 0.0
    ensures x * y >= 0.0
  {
  }

  /** `Series.quantile(p)` over the present values; NaN (None) when there are none. */
  function Quantile(xs: seq<real>, p: real): (r: Option<real>)
    requires 0.0 <= p <= 1.0
    ensures r.Some? <==> |xs| > 0
  {
    if xs == [] then None else Some(QuantileOfSorted(Sort(xs), p))
  }

  lemma Interpolation(a: real, b: real, f: real)
    requires a <= b && 0.0 <= f < 1.0
    ensures a <= Lerp(a, b, f) <= b
  {
    var d := b - a;
    MulNonneg(f, d);
    MulNonneg(1.0 - f, d);
    assert (1.0 - f) * d == d - f * d;
  }

  /** The quantile lies between the smallest and the largest value. */
  lemma QuantileWithinRange(xs: seq<real>, p: real)
    requires 0.0 <= p <= 1.0 && |xs| > 0
    ensures exists i :: 0 <= i < |xs| && xs[i] <= Quantile(xs, p).value
    ensures exists j :: 0 <= j < |xs| && Quantile(xs, p).value <= xs[j]
  {
    var s := Sort(xs);
    var lo, hi := SortedQuantileBracket(s, p);
    assert s[lo] in multiset(xs) && s[hi] in multiset(xs);
    assert s[lo] in xs && s[hi] in xs;
  }

  /** The interpolated value lies between two of the sorted values. */
  lemma SortedQuantileBracket(s: seq<real>, p: real) returns (lo: nat, hi: nat)
    requires |s| > 0 && 0.0 <= p <= 1.0 && Sorted(s)
    ensures lo < |s| && hi < |s|
    ensures s[lo] <= QuantileOfSorted(s, p) <= s[hi]
  {
    FloorBounds(p, |s| - 1);
    var pos := p * (|s| - 1) as real;
    InterpolateBracket(s, pos);
    lo := pos.Floor;
    hi := if lo + 1 < |s| then lo + 1 else |s| - 1;
  }

  /** Interpolating in a sorted sequence lands between the entries at the
      floor of the position and at the next one, and exactly on the entry
      when the position is whole. */
  lemma InterpolateBracket(s: seq<real>, pos: real)
    requires |s| > 0 && 0.0 <= pos <= (|s| - 1) as real && Sorted(s)
    ensures 0 <= pos.Floor < |s|
    ensures var lo := pos.Floor;
            var hi := if lo + 1 < |s| then lo + 1 else |s| - 1;
            s[lo] <= Interpolate(s, pos) <= s[hi]
    ensures pos == pos.Floor as real ==> Interpolate(s, pos) == s[pos.Floor]
  {
    var lo := pos.Floor;
    var frac := pos - lo as real;
    if lo + 1 < |s| {
      assert s[lo] <= s[lo + 1];
      Interpolation(s[lo], s[lo + 1], frac);
      if pos == lo as real {
        assert frac == 0.0;
        ZeroTimes(s[lo + 1] - s[lo]);
      }
    }
  }

  lemma ZeroTimes(d: real)
    ensures 0.0 * d == 0.0
  {
  }

  /** The quantile over any ascending arrangement `s` of the values: with
      `pos = p * (n - 1)` and `lo` its floor, the result lies between the
      values at `lo` and at the next position, on the straight line between
      them at the fraction `pos - lo`, and is the value at `lo` when `pos` is
      a whole number. */
  lemma QuantileAtPosition(xs: seq<real>, s: seq<real>, p: real)
    requires 0.0 <= p <= 1.0 && |xs| > 0 && Sorted(s) && multiset(s) == multiset(xs)
    ensures |s| == |xs|
    ensures 0 <= (p * (|s| - 1) as real).Floor < |s|
    ensures var lo := (p * (|s| - 1) as real).Floor;
            var hi := if lo + 1 < |s| then lo + 1 else |s| - 1;
            s[lo] <= Quantile(xs, p).value <= s[hi]
    ensures var pos := p * (|s| - 1) as real;
            pos == pos.Floor as real ==> Quantile(xs, p).value == s[pos.Floor]
    ensures var pos := p * (|s| - 1) as real;
            var lo := pos.Floor;
            lo + 1 < |s| ==> Quantile(xs, p).value == Lerp(s[lo], s[lo + 1], pos - lo as real)
  {
    var pos := QuantileIsInterpolation(xs, s, p);
    InterpolateBracket(s, pos);
  }

  /** The quantile of the values is the interpolation at `p * (n - 1)` in
      any ascending arrangement of them. */
  lemma QuantileIsInterpolation(xs: seq<real>, s: seq<real>, p: real) returns (pos: real)
    requires 0.0 <= p <= 1.0 && |xs| > 0 && Sorted(s) && multiset(s) == multiset(xs)
    ensures |s| == |xs| && pos == p * (|s| - 1) as real
    ensures 0.0 <= pos <= (|s| - 1) as real
    ensures Quantile(xs, p).value == Interpolate(s, pos)
  {
    var t := Sort(xs);
    SortedUnique(s, t);
    assert Quantile(xs, p).value == QuantileOfSorted(s, p);
    pos := QuantilePosition(s, p);
  }

  lemma QuantilePosition(s: seq<real>, p: real) returns (pos: real)
    requires |s| > 0 && 0.0 <= p <= 1.0
    ensures pos == p * (|s| - 1) as real
    ensures 0.0 <= pos <= (|s| - 1) as real
    ensures QuantileOfSorted(s, p) == Interpolate(s, pos)
  {
    FloorBounds(p, |s| - 1);
    pos := p * (|s| - 1) as real;
  }

  /** A bound on every value bounds the quantile. */
  lemma QuantileAtMostBound(xs: seq<real>, p: real, m: real)
    requires 0.0 <= p <= 1.0 && |xs| > 0
    requires forall i :: 0 <= i < |xs| ==> xs[i] <= m
    ensures Quantile(xs, p).value <= m
  {
    QuantileWithinRange(xs, p);
  }

  /** Row order does not matter to the quantile. */
  lemma QuantileOrderFree(a: seq<real>, b: seq<real>, p: real)
    requires 0.0 <= p <= 1.0
    requires multiset(a) == multiset(b)
    ensures Quantile(a, p) == Quantile(b, p)
  {
    SortOrderFree(a, b);
    assert |a| == |multiset(a)| == |multiset(b)| == |b|;
  }
}
