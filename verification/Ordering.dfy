/** The library sorts the toolkit relies on, reduced to what their documentation promises:
    the result is a permutation, it is ordered, and the stable variant keeps the input
    order of elements the comparator cannot tell apart. */
module Ordering {
  import opened Sums

  /** `less` is a strict weak order, as the comparators handed to the library sorts must be. */
  ghost predicate StrictWeakOrder<T(!new)>(less: (T, T) -> bool) {
    && (forall a, b {:trigger less(a, b)} :: less(a, b) ==> !less(b, a))
    && (forall a, b, c {:trigger less(a, b), less(c, b)} {:trigger less(a, b), less(a, c)} ::
          less(a, b) ==> less(a, c) || less(c, b))
  }

  predicate Ordered<T>(s: seq<T>, less: (T, T) -> bool) {
    forall i, j | 0 <= i < j < |s| :: !less(s[j], s[i])
  }

  predicate SortedPermutation<T(==)>(r: seq<T>, s: seq<T>, less: (T, T) -> bool) {
    Ordered(r, less) && multiset(r) == multiset(s)
  }

  /** Where a stable insertion of `v` into an ordered `s` lands: after everything not above it. */
  function InsertionPoint<T>(s: seq<T>, v: T, less: (T, T) -> bool): (k: nat)
    ensures k <= |s|
    ensures k < |s| ==> less(v, s[k])
    ensures k > 0 ==> !less(v, s[k-1])
  {
    if |s| == 0 || !less(v, s[|s|-1]) then |s|
    else InsertionPoint(s[..|s|-1], v, less)
  }

  function Insert<T>(s: seq<T>, v: T, less: (T, T) -> bool): (r: seq<T>)
    ensures |r| == |s| + 1
    ensures multiset(r) == multiset(s) + multiset{v}
  {
    var k := InsertionPoint(s, v, less);
    assert s == s[..k] + s[k..];
    s[..k] + [v] + s[k..]
  }

  function StableSort<T>(s: seq<T>, less: (T, T) -> bool): (r: seq<T>)
    ensures |r| == |s|
    ensures multiset(r) == multiset(s)
  {
    if |s| == 0 then []
    else
      assert s == s[..|s|-1] + [s[|s|-1]];
      Insert(StableSort(s[..|s|-1], less), s[|s|-1], less)
  }

  lemma BelowInsertion<T(!new)>(s: seq<T>, v: T, less: (T, T) -> bool, i: nat)
    requires StrictWeakOrder(less) && Ordered(s, less) && i < InsertionPoint(s, v, less)
    ensures !less(v, s[i])
  {
    var below, w := s[InsertionPoint(s, v, less) - 1], s[i];
    assert less(v, w) ==> less(v, below) || less(below, w);
  }

  lemma AboveInsertion<T(!new)>(s: seq<T>, v: T, less: (T, T) -> bool, i: nat)
    requires StrictWeakOrder(less) && Ordered(s, less) && InsertionPoint(s, v, less) <= i < |s|
    ensures less(v, s[i]) && !less(s[i], v)
  {
    var above, w := s[InsertionPoint(s, v, less)], s[i];
    assert less(v, above) ==> less(v, w) || less(w, above);
  }

  /** Inserting into an ordered sequence keeps it ordered. */
  lemma InsertOrdered<T(!new)>(s: seq<T>, v: T, less: (T, T) -> bool)
    requires StrictWeakOrder(less) && Ordered(s, less)
    ensures Ordered(Insert(s, v, less), less)
  {
    var k := InsertionPoint(s, v, less);
    forall i | 0 <= i < k ensures !less(v, s[i]) {
      BelowInsertion(s, v, less, i);
    }
    forall i | k <= i < |s| ensures !less(s[i], v) {
      AboveInsertion(s, v, less, i);
    }
  }

  lemma {:induction false} StableSortOrdered<T(!new)>(s: seq<T>, less: (T, T) -> bool)
    requires StrictWeakOrder(less)
    ensures SortedPermutation(StableSort(s, less), s, less)
  {
    if |s| > 0 {
      StableSortOrdered(s[..|s|-1], less);
      InsertOrdered(StableSort(s[..|s|-1], less), s[|s|-1], less);
    }
  }

  /** `a` comes before `b` in the stable order: `less` first, then input position. */
  predicate Before<T>(a: T, b: T, less: (T, T) -> bool, position: T -> int) {
    less(a, b) || (!less(b, a) && position(a) < position(b))
  }

  ghost predicate StrictlyBefore<T>(s: seq<T>, less: (T, T) -> bool, position: T -> int) {
    forall i, j | 0 <= i < j < |s| :: Before(s[i], s[j], less, position)
  }

  /** A late arrival lands after everything it does not beat, so the strict order is kept. */
  lemma InsertIsStable<T(!new)>(r: seq<T>, v: T, less: (T, T) -> bool, position: T -> int)
    requires StrictWeakOrder(less) && Ordered(r, less) && StrictlyBefore(r, less, position)
    requires forall i | 0 <= i < |r| :: position(r[i]) < position(v)
    ensures StrictlyBefore(Insert(r, v, less), less, position)
  {
    var k := InsertionPoint(r, v, less);
    forall i | 0 <= i < k ensures Before(r[i], v, less, position) {
      BelowInsertion(r, v, less, i);
    }
    forall i | k <= i < |r| ensures Before(v, r[i], less, position) {
      AboveInsertion(r, v, less, i);
    }
    assert r == r[..k] + r[k..];
    PutBetween(r[..k], v, r[k..], less, position);
  }

  lemma PutBetween<T>(a: seq<T>, v: T, b: seq<T>, less: (T, T) -> bool, position: T -> int)
    requires StrictlyBefore(a + b, less, position)
    requires forall i | 0 <= i < |a| :: Before(a[i], v, less, position)
    requires forall i | 0 <= i < |b| :: Before(v, b[i], less, position)
    ensures StrictlyBefore(a + [v] + b, less, position)
  {
    var s, t := a + b, a + [v] + b;
    forall i, j | 0 <= i < j < |t| ensures Before(t[i], t[j], less, position) {
      if i != |a| && j != |a| {
        var i', j' := if i < |a| then i else i - 1, if j < |a| then j else j - 1;
        assert t[i] == s[i'] && t[j] == s[j'];
      }
    }
  }

  /** Elements that arrive in increasing position leave the stable sort in the strict order `Before`. */
  lemma {:induction false} StableSortIsStable<T(!new)>(s: seq<T>, less: (T, T) -> bool, position: T -> int)
    requires StrictWeakOrder(less)
    requires forall i, j | 0 <= i < j < |s| :: position(s[i]) < position(s[j])
    ensures StrictlyBefore(StableSort(s, less), less, position)
  {
    if |s| > 0 {
      var init, v := s[..|s|-1], s[|s|-1];
      var r := StableSort(init, less);
      StableSortIsStable(init, less, position);
      StableSortOrdered(init, less);
      forall i | 0 <= i < |r| ensures position(r[i]) < position(v) {
        assert r[i] in multiset(init);
      }
      InsertIsStable(r, v, less, position);
    }
  }

  /** Removing one occurrence of a common last element. */
  lemma SameInit<T>(r: seq<T>, t: seq<T>)
    requires |r| == |t| > 0 && r[|r|-1] == t[|t|-1] && multiset(r) == multiset(t)
    ensures multiset(r[..|r|-1]) == multiset(t[..|t|-1])
  {
    assert r == r[..|r|-1] + [r[|r|-1]];
    assert t == t[..|t|-1] + [t[|t|-1]];
    SameAfterRemoval(r[..|r|-1], t[..|t|-1], r[|r|-1]);
  }

  /** The stable order is unique: two sequences in it with the same elements are equal. */
  lemma {:induction false} StableOrderUnique<T(!new)>(r: seq<T>, t: seq<T>, less: (T, T) -> bool, position: T -> int)
    requires StrictWeakOrder(less)
    requires multiset(r) == multiset(t)
    requires StrictlyBefore(r, less, position) && StrictlyBefore(t, less, position)
    ensures r == t
  {
    assert |multiset(r)| == |r| && |multiset(t)| == |t|;
    if |r| > 0 {
      var n := |r| - 1;
      var r', t' := r[..n], t[..n];
      SameLast(r, t, less, position);
      SameInit(r, t);
      StableOrderUnique(r', t', less, position);
      assert r == r' + [r[n]] && t == t' + [t[n]];
    }
  }

  lemma LastComesLast<T>(r: seq<T>, v: T, less: (T, T) -> bool, position: T -> int)
    requires StrictlyBefore(r, less, position) && v in r
    ensures v == r[|r|-1] || Before(v, r[|r|-1], less, position)
  {
    var k :| 0 <= k < |r| && r[k] == v;
    assert k < |r| - 1 ==> Before(r[k], r[|r|-1], less, position);
  }

  lemma SameLast<T(!new)>(r: seq<T>, t: seq<T>, less: (T, T) -> bool, position: T -> int)
    requires StrictWeakOrder(less) && |r| == |t| > 0 && multiset(r) == multiset(t)
    requires StrictlyBefore(r, less, position) && StrictlyBefore(t, less, position)
    ensures r[|r|-1] == t[|t|-1]
  {
    var a, b := r[|r|-1], t[|t|-1];
    assert a in multiset(t) && b in multiset(r);
    LastComesLast(t, a, less, position);
    LastComesLast(r, b, less, position);
  }

  predicate LessReal(a: real, b: real) { a < b }

  ghost predicate Ascending(s: seq<real>) {
    forall i, j | 0 <= i <= j < |s| :: s[i] <= s[j]
  }

  /** `sort.Float64s`: ascending order, which for numbers leaves no choice. */
  function Sorted(s: seq<real>): (r: seq<real>)
    ensures |r| == |s| && multiset(r) == multiset(s) && Ascending(r)
  {
    StableSortOrdered(s, LessReal);
    assert forall i, j | 0 <= i < j < |s| :: !LessReal(StableSort(s, LessReal)[j], StableSort(s, LessReal)[i]);
    StableSort(s, LessReal)
  }

  lemma {:induction false} AscendingUnique(r: seq<real>, t: seq<real>)
    requires Ascending(r) && Ascending(t) && multiset(r) == multiset(t)
    ensures r == t
  {
    assert |multiset(r)| == |r| && |multiset(t)| == |t|;
    if |r| > 0 {
      var n := |r| - 1;
      assert r[n] in multiset(t) && t[n] in multiset(r);
      SameInit(r, t);
      AscendingUnique(r[..n], t[..n]);
      assert r == r[..n] + [r[n]] && t == t[..n] + [t[n]];
    }
  }

  /** In-place ascending sort of a float slice. */
  method SortFloats(a: array<real>)
    modifies a
    ensures a[..] == Sorted(old(a[..]))
  {
    var sorted := Sorted(a[..]);
    forall i | 0 <= i < a.Length {
      a[i] := sorted[i];
    }
  }
}
