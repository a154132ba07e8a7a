/** Small facts about numbers that several modules need. */
module Basics {

  function Min(a: nat, b: nat): nat { if a < b then a else b }

  predicate Nondecreasing(s: seq<int>) { forall i, j | 0 <= i <= j < |s| :: s[i] <= s[j] }

  lemma ProductPositive(a: real, b: real)
    requires a >= 0.0 && b >= 0.0
    ensures a * b >= 0.0
    ensures a > 0.0 && b > 0.0 ==> a * b > 0.0
  {
  }

  lemma SignOfFactor(a: real, s: real)
    requires s > 0.0 && a * s >= 0.0
    ensures a >= 0.0
  {
  }

}
