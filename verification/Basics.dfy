/** Small facts the other modules share. */
module Basics {

  function Least(a: int, b: int): int { if a < b then a else b }

  function Most(a: int, b: int): int { if a > b then a else b }

  lemma SubsetOfEqualSize<T>(a: set<T>, b: set<T>)
    requires a <= b && |a| == |b|
    ensures a == b
  {
    assert b == a + (b - a);
  }

  lemma Scale(factor: int, a: int, b: int)
    requires factor > 0 && a <= b
    ensures a * factor <= b * factor
  {
  }
}
