/** Interpolated quantiles, as both the release gate and the SLO calculator compute them. */
module Quantiles {
  import opened Sums
  import opened Ordering

  function Clamp(q: real): (r: real)
    ensures 0.0 <= r <= 1.0
  {
    if q <= 0.0 then 0.0 else if q >= 1.0 then 1.0 else q
  }

  function Ceil(v: real): int { -((-v).Floor) }

  /** The position `q * (n - 1)` in a sample of `n`. */
  function Position(n: nat, q: real): (pos: real)
    requires n > 0
    ensures 0.0 <= pos <= (n - 1) as real
  {
    ScaleBound(Clamp(q), (n - 1) as real);
    Clamp(q) * (n - 1) as real
  }

  lemma ScaleBound(c: real, m: real)
    requires 0.0 <= c <= 1.0 && m >= 0.0
    ensures 0.0 <= c * m <= m
  {
  }

  lemma ScaleBoundBelow(c: real, m: real)
    requires c >= 0.0 && m >= 0.0
    ensures c * m >= 0.0
  {
  }

  /** The piecewise linear curve through the points `(k, s[k])`. */
  function Interpolate(s: seq<real>, pos: real): real
    requires |s| > 0 && 0.0 <= pos <= (|s| - 1) as real
  {
    var lo := pos.Floor;
    if pos == lo as real then s[lo] else Blend(s[lo], s[lo+1], pos - lo as real)
  }

  function Blend(a: real, b: real, frac: real): real {
    a * (1.0 - frac) + b * frac
  }

  /** The `q`-quantile of a sample; zero for the empty sample. */
  function Quantile(values: seq<real>, q: real): real {
    if |values| == 0 then 0.0 else Interpolate(Sorted(values), Position(|values|, q))
  }

  /** Copy, sort in place, interpolate between the two neighbours of the position. */
  method ComputeQuantile(values: seq<real>, q: real) returns (r: real)
    ensures r == Quantile(values, q)
  {
    if |values| == 0 {
      return 0.0;
    }
    var q' := if q <= 0.0 then 0.0 else q;
    q' := if q' >= 1.0 then 1.0 else q';
    assert q' == Clamp(q);
    var cpy := new real[|values|](i requires 0 <= i < |values| => values[i]);
    assert cpy[..] == values;
    SortFloats(cpy);
    if cpy.Length == 1 {
      return cpy[0];
    }
    var pos := PositionOf(cpy.Length, q', q);
    r := ReadAt(cpy, pos);
  }

  method PositionOf(n: nat, clamped: real, ghost q: real) returns (pos: real)
    requires n > 0 && clamped == Clamp(q)
    ensures pos == Position(n, q)
  {
    pos := clamped * (n - 1) as real;
  }

  method ReadAt(cpy: array<real>, pos: real) returns (r: real)
    requires cpy.Length > 0 && 0.0 <= pos <= (cpy.Length - 1) as real
    ensures r == Interpolate(cpy[..], pos)
  {
    var lo, hi := pos.Floor, Ceil(pos);
    if lo == hi {
      return cpy[lo];
    }
    assert hi == lo + 1;
    var frac := pos - lo as real;
    r := Blend(cpy[lo], cpy[hi], frac);
  }

  // ---- Position in the sorted sample ----

  /** Between two neighbours the curve stays between their values. */
  lemma InterpolateBetween(s: seq<real>, pos: real)
    requires Ascending(s) && |s| > 0 && 0.0 <= pos <= (|s| - 1) as real
    ensures s[pos.Floor] <= Interpolate(s, pos)
    ensures pos.Floor + 1 < |s| ==> Interpolate(s, pos) <= s[pos.Floor + 1]
    ensures Interpolate(s, pos) <= s[Ceil(pos)]
  {
    var lo := pos.Floor;
    if pos != lo as real {
      BlendBetween(s[lo], s[lo+1], pos - lo as real);
    }
  }

  lemma BlendBetween(a: real, b: real, f: real)
    requires a <= b && 0.0 <= f <= 1.0
    ensures a <= Blend(a, b, f) <= b
  {
    assert Blend(a, b, f) == a + (b - a) * f;
    ScaleBound(f, b - a);
  }

  lemma BlendGrows(a: real, b: real, f: real, f': real)
    requires a <= b && f <= f'
    ensures Blend(a, b, f) <= Blend(a, b, f')
  {
    ScaleBoundBelow(b - a, f' - f);
    assert Blend(a, b, f') - Blend(a, b, f) == (b - a) * (f' - f);
  }

  lemma BlendOrder(a: real, b: real, a': real, b': real, f: real)
    requires a <= a' && b <= b' && 0.0 <= f <= 1.0
    ensures Blend(a, b, f) <= Blend(a', b', f)
  {
    ScaleBoundBelow(a' - a, 1.0 - f);
    ScaleBoundBelow(b' - b, f);
    assert Blend(a', b', f) - Blend(a, b, f) == (a' - a) * (1.0 - f) + (b' - b) * f;
  }

  /** The curve through ascending points does not fall. */
  lemma InterpolateMonotone(s: seq<real>, p: real, p': real)
    requires Ascending(s) && |s| > 0 && 0.0 <= p <= p' <= (|s| - 1) as real
    ensures Interpolate(s, p) <= Interpolate(s, p')
  {
    InterpolateBetween(s, p);
    InterpolateBetween(s, p');
    var lo, lo' := p.Floor, p'.Floor;
    if lo == lo' && p != lo as real {
      BlendGrows(s[lo], s[lo+1], p - lo as real, p' - lo as real);
    }
  }

  /** A curve through higher points lies higher. */
  lemma InterpolateAbove(s: seq<real>, t: seq<real>, pos: real)
    requires |s| == |t| > 0 && 0.0 <= pos <= (|s| - 1) as real
    requires forall k | 0 <= k < |s| :: s[k] <= t[k]
    ensures Interpolate(s, pos) <= Interpolate(t, pos)
  {
    var lo := pos.Floor;
    if pos != lo as real {
      BlendOrder(s[lo], s[lo+1], t[lo], t[lo+1], pos - lo as real);
    }
  }

  // ---- Order statistics ----

  function AtMost(t: real): real -> bool { v => v <= t }

  function AtLeast(t: real): real -> bool { v => v >= t }

  /** The `k`-th smallest value is at most `t` exactly when more than `k` values are. */
  lemma OrderStatistic(s: seq<real>, k: nat, t: real)
    requires Ascending(s) && k < |s|
    ensures s[k] <= t <==> Count(s, AtMost(t)) > k
  {
    if s[k] <= t {
      CountSplit(s, k + 1, AtMost(t));
      var first := s[..k+1];
      forall i | 0 <= i < |first| ensures AtMost(t)(first[i]) {
        assert s[i] <= s[k];
      }
      CountAll(first, AtMost(t));
    } else {
      CountSplit(s, k, AtMost(t));
      var rest := s[k..];
      forall i | 0 <= i < |rest| ensures !AtMost(t)(rest[i]) {
        assert s[k] <= s[k + i];
      }
      CountNone(rest, AtMost(t));
    }
  }

  lemma CountFromTop(s: seq<real>, k: nat, t: real)
    requires Ascending(s) && k < |s| && s[k] >= t
    ensures Count(s, AtLeast(t)) >= |s| - k
  {
    CountSplit(s, k, AtLeast(t));
    CountAll(s[k..], AtLeast(t));
  }

  // ---- Properties of the quantile ----

  lemma BlendStep(a: real, b: real, frac: real)
    ensures Blend(a, b, frac) == a + frac * (b - a)
  {
  }

  /** Between two neighbours in the sorted sample the curve is the straight line through both. */
  lemma InterpolateOnLine(s: seq<real>, pos: real, k: nat)
    requires k + 1 < |s| && k as real <= pos <= (k + 1) as real
    ensures Interpolate(s, pos) == s[k] + (pos - k as real) * (s[k+1] - s[k])
  {
    if pos < (k + 1) as real {
      assert pos.Floor == k;
      BlendStep(s[k], s[k+1], pos - k as real);
    }
  }

  lemma PositionIsShare(n: nat, q: real)
    requires n > 0
    ensures 0.0 <= q <= 1.0 ==> Position(n, q) == q * (n - 1) as real
    ensures q <= 0.0 ==> Position(n, q) == Position(n, 0.0) == 0.0
    ensures q >= 1.0 ==> Position(n, q) == Position(n, 1.0) == (n - 1) as real
  {
  }

  lemma InterpolateSorted(values: seq<real>, s: seq<real>, q: real, k: nat, pos: real)
    requires Ascending(s) && multiset(s) == multiset(values) && k + 1 < |s| == |values|
    requires pos == Position(|values|, q) && k as real <= pos <= (k + 1) as real
    ensures Quantile(values, q) == s[k] + (pos - k as real) * (s[k+1] - s[k])
  {
    AscendingUnique(Sorted(values), s);
    InterpolateOnLine(s, pos, k);
  }

  /** The `q`-quantile lies `q * (n - 1)` steps into the sorted sample, on the line between the neighbours there. */
  lemma QuantileOnLine(values: seq<real>, s: seq<real>, q: real, k: nat, pos: real)
    requires Ascending(s) && multiset(s) == multiset(values) && k + 1 < |s| == |values|
    requires 0.0 <= q <= 1.0 && pos == q * (|values| - 1) as real && k as real <= pos <= (k + 1) as real
    ensures Quantile(values, q) == s[k] + (pos - k as real) * (s[k+1] - s[k])
  {
    PositionIsShare(|values|, q);
    InterpolateSorted(values, s, q, k, pos);
  }

  /** Outside of [0, 1] the quantile is the smallest or the largest value. */
  lemma QuantileAtEnds(values: seq<real>, s: seq<real>, q: real)
    requires Ascending(s) && multiset(s) == multiset(values) && |s| == |values| > 0
    ensures q <= 0.0 ==> Quantile(values, q) == s[0]
    ensures q >= 1.0 ==> Quantile(values, q) == s[|s|-1]
  {
    AscendingUnique(Sorted(values), s);
    PositionIsShare(|values|, q);
  }

  /** Only the values matter, not their order. */
  lemma QuantileOrderFree(values: seq<real>, values': seq<real>, q: real)
    requires multiset(values) == multiset(values')
    ensures Quantile(values, q) == Quantile(values', q)
  {
    assert |multiset(values)| == |values| && |multiset(values')| == |values'|;
    AscendingUnique(Sorted(values), Sorted(values'));
  }

  /** At least `floor(q(n-1)) + 1` values lie at or below the quantile, and at least `n - ceil(q(n-1))` at or above. */
  lemma QuantileSplitsSample(values: seq<real>, q: real)
    requires |values| > 0
    ensures Count(values, AtMost(Quantile(values, q))) >= Position(|values|, q).Floor + 1
    ensures Count(values, AtLeast(Quantile(values, q))) >= |values| - Ceil(Position(|values|, q))
  {
    var s, pos, r := Sorted(values), Position(|values|, q), Quantile(values, q);
    InterpolateBetween(s, pos);
    OrderStatistic(s, pos.Floor, r);
    CountFromTop(s, Ceil(pos), r);
    CountPermutation(s, values, AtMost(r));
    CountPermutation(s, values, AtLeast(r));
  }

  lemma SortedMembers(values: seq<real>, k: nat)
    requires k < |values|
    ensures Sorted(values)[k] in values
  {
    assert Sorted(values)[k] in multiset(values);
  }

  /** The quantile lies between the smallest and the largest value, and reaches them at the ends. */
  lemma QuantileBounds(values: seq<real>, q: real, low: real, high: real)
    requires |values| > 0 && forall v | v in values :: low <= v <= high
    ensures low <= Quantile(values, q) <= high
    ensures Quantile(values, 0.0) in values && Quantile(values, 1.0) in values
  {
    var s, pos := Sorted(values), Position(|values|, q);
    InterpolateBetween(s, pos);
    SortedMembers(values, pos.Floor);
    SortedMembers(values, Ceil(pos));
    SortedMembers(values, 0);
    SortedMembers(values, |values| - 1);
    assert Position(|values|, 0.0) == 0.0;
    assert Position(|values|, 1.0) == (|values| - 1) as real;
  }

  lemma PositionMonotone(n: nat, q: real, q': real)
    requires n > 0 && q <= q'
    ensures Position(n, q) <= Position(n, q')
  {
    assert Position(n, q') - Position(n, q) == (Clamp(q') - Clamp(q)) * (n - 1) as real;
    ScaleBoundBelow(Clamp(q') - Clamp(q), (n - 1) as real);
  }

  /** The quantile does not fall as `q` grows. */
  lemma QuantileMonotoneInQ(values: seq<real>, q: real, q': real)
    requires q <= q'
    ensures Quantile(values, q) <= Quantile(values, q')
  {
    if |values| > 0 {
      PositionMonotone(|values|, q, q');
      InterpolateMonotone(Sorted(values), Position(|values|, q), Position(|values|, q'));
    }
  }

  /** Nor when any of the values grow. */
  lemma QuantileMonotoneInData(values: seq<real>, values': seq<real>, q: real)
    requires |values| == |values'| && forall i | 0 <= i < |values| :: values[i] <= values'[i]
    ensures Quantile(values, q) <= Quantile(values', q)
  {
    var s, s' := Sorted(values), Sorted(values');
    forall k | 0 <= k < |s| ensures s[k] <= s'[k] {
      var t := s'[k];
      OrderStatistic(s, k, t);
      OrderStatistic(s', k, t);
      CountPermutation(s, values, AtMost(t));
      CountPermutation(s', values', AtMost(t));
      CountPointwise(values', values, AtMost(t), AtMost(t));
    }
    if |values| > 0 {
      InterpolateAbove(s, s', Position(|values|, q));
    }
  }

  /** Every value of `high` above every value of `low` puts every quantile of `high` above every quantile of `low`. */
  lemma QuantileSeparates(low: seq<real>, high: seq<real>, q: real, q': real)
    requires |low| > 0 && |high| > 0
    ensures (forall a, b | a in low && b in high :: a <= b) ==> Quantile(low, q) <= Quantile(high, q')
    ensures (forall a, b | a in low && b in high :: a < b) ==> Quantile(low, q) < Quantile(high, q')
  {
    var top, bottom := Sorted(low)[|low| - 1], Sorted(high)[0];
    SortedMembers(low, |low| - 1);
    SortedMembers(high, 0);
    forall v | v in low ensures v <= top {
      InSorted(low, v);
    }
    forall v | v in high ensures bottom <= v {
      InSorted(high, v);
    }
    QuantileBelow(low, q, top);
    QuantileAbove(high, q', bottom);
  }

  lemma InSorted(values: seq<real>, v: real)
    requires v in values
    ensures v in Sorted(values)
  {
    assert v in multiset(Sorted(values));
  }

  lemma QuantileBelow(values: seq<real>, q: real, high: real)
    requires |values| > 0 && forall v | v in values :: v <= high
    ensures Quantile(values, q) <= high
  {
    var s, pos := Sorted(values), Position(|values|, q);
    InterpolateBetween(s, pos);
    SortedMembers(values, Ceil(pos));
  }

  lemma QuantileAbove(values: seq<real>, q: real, low: real)
    requires |values| > 0 && forall v | v in values :: low <= v
    ensures low <= Quantile(values, q)
  {
    var s, pos := Sorted(values), Position(|values|, q);
    InterpolateBetween(s, pos);
    SortedMembers(values, pos.Floor);
  }
}
