/** Finite sums and counts over sequences, with the few laws the statistics need:
    additivity, independence of order, and pointwise comparison. */
module Sums {

  function Sum<T>(s: seq<T>, f: T -> real): real {
    if |s| == 0 then 0.0 else Sum(s[..|s|-1], f) + f(s[|s|-1])
  }

  function Count<T>(s: seq<T>, p: T -> bool): (n: nat)
    ensures n <= |s|
  {
    if |s| == 0 then 0 else Count(s[..|s|-1], p) + (if p(s[|s|-1]) then 1 else 0)
  }

  /** `s` without the element at `k`. */
  function RemoveAt<T>(s: seq<T>, k: nat): (r: seq<T>)
    requires k < |s|
    ensures |r| == |s| - 1
  {
    s[..k] + s[k+1..]
  }

  lemma RemoveAtMultiset<T>(s: seq<T>, k: nat)
    requires k < |s|
    ensures multiset(s) == multiset(RemoveAt(s, k)) + multiset{s[k]}
  {
    assert s == s[..k] + [s[k]] + s[k+1..];
  }

  lemma SameAfterRemoval<T>(s: seq<T>, t: seq<T>, v: T)
    requires multiset(s) + multiset{v} == multiset(t) + multiset{v}
    ensures multiset(s) == multiset(t)
  {
    assert multiset(s) == (multiset(s) + multiset{v}) - multiset{v};
    assert multiset(t) == (multiset(t) + multiset{v}) - multiset{v};
  }

  lemma SumAppend<T>(s: seq<T>, v: T, f: T -> real)
    ensures Sum(s + [v], f) == Sum(s, f) + f(v)
  {
    assert (s + [v])[..|s|] == s;
  }

  lemma {:induction false} SumConcat<T>(s: seq<T>, t: seq<T>, f: T -> real)
    ensures Sum(s + t, f) == Sum(s, f) + Sum(t, f)
  {
    if |t| == 0 {
      assert s + t == s;
    } else {
      assert (s + t)[..|s + t| - 1] == s + t[..|t|-1];
      SumConcat(s, t[..|t|-1], f);
    }
  }

  lemma SumRemoveAt<T>(s: seq<T>, k: nat, f: T -> real)
    requires k < |s|
    ensures Sum(s, f) == Sum(RemoveAt(s, k), f) + f(s[k])
  {
    SumSplit(s, k + 1, f);
    SumHead(s, k, f);
    SumConcat(s[..k], s[k+1..], f);
  }

  lemma SumSplit<T>(s: seq<T>, k: nat, f: T -> real)
    requires k <= |s|
    ensures Sum(s, f) == Sum(s[..k], f) + Sum(s[k..], f)
  {
    assert s == s[..k] + s[k..];
    SumConcat(s[..k], s[k..], f);
  }

  lemma SumHead<T>(s: seq<T>, k: nat, f: T -> real)
    requires k < |s|
    ensures Sum(s[..k+1], f) == Sum(s[..k], f) + f(s[k])
  {
    assert s[..k+1][..k] == s[..k];
  }

  lemma SumThreeParts<T>(s: seq<T>, i: nat, j: nat, f: T -> real)
    requires i <= j <= |s|
    ensures Sum(s, f) == Sum(s[..i], f) + Sum(s[i..j], f) + Sum(s[j..], f)
  {
    assert s == (s[..i] + s[i..j]) + s[j..];
    SumConcat(s[..i] + s[i..j], s[j..], f);
    SumConcat(s[..i], s[i..j], f);
  }

  /** A sum does not depend on the order of its terms. */
  lemma {:induction false} SumPermutation<T>(s: seq<T>, t: seq<T>, f: T -> real)
    requires multiset(s) == multiset(t)
    ensures Sum(s, f) == Sum(t, f)
  {
    if |s| == 0 {
      assert |multiset(t)| == 0;
    } else {
      var v := s[|s|-1];
      var init := s[..|s|-1];
      assert s == init + [v];
      assert v in multiset(t);
      var k :| 0 <= k < |t| && t[k] == v;
      SumRemoveAt(t, k, f);
      RemoveAtMultiset(t, k);
      SameAfterRemoval(init, RemoveAt(t, k), v);
      SumPermutation(init, RemoveAt(t, k), f);
    }
  }

  lemma {:induction false} SumEqual<T>(s: seq<T>, f: T -> real, g: T -> real)
    requires forall i | 0 <= i < |s| :: f(s[i]) == g(s[i])
    ensures Sum(s, f) == Sum(s, g)
  {
    if |s| > 0 {
      SumEqual(s[..|s|-1], f, g);
    }
  }

  lemma {:induction false} SumPlus<T>(s: seq<T>, f: T -> real, g: T -> real, h: T -> real)
    requires forall i | 0 <= i < |s| :: h(s[i]) == f(s[i]) + g(s[i])
    ensures Sum(s, h) == Sum(s, f) + Sum(s, g)
  {
    if |s| > 0 {
      SumPlus(s[..|s|-1], f, g, h);
    }
  }

  lemma {:induction false} SumConstant<T>(s: seq<T>, f: T -> real, c: real)
    requires forall i | 0 <= i < |s| :: f(s[i]) == c
    ensures Sum(s, f) == |s| as real * c
  {
    if |s| > 0 {
      SumConstant(s[..|s|-1], f, c);
    }
  }

  lemma {:induction false} SumZero<T>(s: seq<T>, f: T -> real)
    requires forall i | 0 <= i < |s| :: f(s[i]) == 0.0
    ensures Sum(s, f) == 0.0
  {
    if |s| > 0 {
      SumZero(s[..|s|-1], f);
    }
  }

  /** A sum of terms no larger than `c` is at most `|s| * c`, and reaches that bound only if every term does. */
  lemma {:induction false} SumUpperBound<T>(s: seq<T>, f: T -> real, c: real)
    requires forall i | 0 <= i < |s| :: f(s[i]) <= c
    ensures Sum(s, f) <= |s| as real * c
    ensures Sum(s, f) == |s| as real * c ==> forall i | 0 <= i < |s| :: f(s[i]) == c
  {
    if |s| > 0 {
      SumUpperBound(s[..|s|-1], f, c);
    }
  }

  /** Summing over `s` mapped through `g` is summing the composition over `s`. */
  lemma {:induction false} SumMapped<S, T>(s: seq<S>, t: seq<T>, f: S -> real, h: T -> real)
    requires |s| == |t| && forall i | 0 <= i < |s| :: f(s[i]) == h(t[i])
    ensures Sum(s, f) == Sum(t, h)
  {
    if |s| > 0 {
      SumMapped(s[..|s|-1], t[..|t|-1], f, h);
    }
  }

  lemma CountAppend<T>(s: seq<T>, v: T, p: T -> bool)
    ensures Count(s + [v], p) == Count(s, p) + (if p(v) then 1 else 0)
  {
    assert (s + [v])[..|s|] == s;
  }

  lemma {:induction false} CountConcat<T>(s: seq<T>, t: seq<T>, p: T -> bool)
    ensures Count(s + t, p) == Count(s, p) + Count(t, p)
  {
    if |t| == 0 {
      assert s + t == s;
    } else {
      assert (s + t)[..|s + t| - 1] == s + t[..|t|-1];
      CountConcat(s, t[..|t|-1], p);
    }
  }

  lemma CountSplit<T>(s: seq<T>, k: nat, p: T -> bool)
    requires k <= |s|
    ensures Count(s, p) == Count(s[..k], p) + Count(s[k..], p)
  {
    assert s == s[..k] + s[k..];
    CountConcat(s[..k], s[k..], p);
  }

  lemma CountHead<T>(s: seq<T>, k: nat, p: T -> bool)
    requires k < |s|
    ensures Count(s[..k+1], p) == Count(s[..k], p) + (if p(s[k]) then 1 else 0)
  {
    assert s[..k+1][..k] == s[..k];
  }

  lemma CountRemoveAt<T>(s: seq<T>, k: nat, p: T -> bool)
    requires k < |s|
    ensures Count(s, p) == Count(RemoveAt(s, k), p) + (if p(s[k]) then 1 else 0)
  {
    CountSplit(s, k + 1, p);
    CountHead(s, k, p);
    CountConcat(s[..k], s[k+1..], p);
  }

  lemma {:induction false} CountPermutation<T>(s: seq<T>, t: seq<T>, p: T -> bool)
    requires multiset(s) == multiset(t)
    ensures Count(s, p) == Count(t, p)
  {
    if |s| == 0 {
      assert |multiset(t)| == 0;
    } else {
      var v := s[|s|-1];
      var init := s[..|s|-1];
      assert s == init + [v];
      assert v in multiset(t);
      var k :| 0 <= k < |t| && t[k] == v;
      CountRemoveAt(t, k, p);
      RemoveAtMultiset(t, k);
      SameAfterRemoval(init, RemoveAt(t, k), v);
      CountPermutation(init, RemoveAt(t, k), p);
    }
  }

  lemma {:induction false} CountAll<T>(s: seq<T>, p: T -> bool)
    requires forall i | 0 <= i < |s| :: p(s[i])
    ensures Count(s, p) == |s|
  {
    if |s| > 0 {
      CountAll(s[..|s|-1], p);
    }
  }

  lemma {:induction false} CountNone<T>(s: seq<T>, p: T -> bool)
    requires forall i | 0 <= i < |s| :: !p(s[i])
    ensures Count(s, p) == 0
  {
    if |s| > 0 {
      CountNone(s[..|s|-1], p);
    }
  }

  lemma {:induction false} CountPointwise<S, T>(s: seq<S>, t: seq<T>, p: S -> bool, q: T -> bool)
    requires |s| == |t| && forall i | 0 <= i < |s| :: p(s[i]) ==> q(t[i])
    ensures Count(s, p) <= Count(t, q)
  {
    if |s| > 0 {
      CountPointwise(s[..|s|-1], t[..|t|-1], p, q);
    }
  }

  /** Replacing one element. */
  lemma CountUpdate<T>(s: seq<T>, k: nat, v: T, p: T -> bool)
    requires k < |s|
    ensures Count(s[k := v], p) == Count(s, p) - (if p(s[k]) then 1 else 0) + (if p(v) then 1 else 0)
  {
    CountRemoveAt(s, k, p);
    CountRemoveAt(s[k := v], k, p);
    assert RemoveAt(s[k := v], k) == RemoveAt(s, k);
  }

  lemma {:induction false} CountPositive<T>(s: seq<T>, k: nat, p: T -> bool)
    requires k < |s| && p(s[k])
    ensures Count(s, p) > 0
  {
    if k < |s| - 1 {
      CountPositive(s[..|s|-1], k, p);
    }
  }

  lemma {:induction false} CountWitness<T>(s: seq<T>, p: T -> bool) returns (k: nat)
    requires Count(s, p) > 0
    ensures k < |s| && p(s[k])
  {
    if p(s[|s|-1]) {
      k := |s| - 1;
    } else {
      k := CountWitness(s[..|s|-1], p);
    }
  }

  function Multiple(n: nat, c: real): real { n as real * c }

  lemma OneMoreMultiple(n: nat, c: real)
    ensures Multiple(n + 1, c) == Multiple(n, c) + c
  {
  }

  /** A sum whose terms are zero off `p` and between `low` and `high` on it. */
  lemma {:induction false} SumOverSelected<T>(s: seq<T>, f: T -> real, p: T -> bool, low: real, high: real)
    requires forall i | 0 <= i < |s| :: if p(s[i]) then low <= f(s[i]) <= high else f(s[i]) == 0.0
    ensures Multiple(Count(s, p), low) <= Sum(s, f) <= Multiple(Count(s, p), high)
  {
    if |s| > 0 {
      var n := Count(s[..|s|-1], p);
      SumOverSelected(s[..|s|-1], f, p, low, high);
      OneMoreMultiple(n, low);
      OneMoreMultiple(n, high);
    }
  }
}
