/** The names of actions, and facts about set sizes and products, that several modules need. */
module Basics {
  const CREATE_ACTION := "create"
  const DELETE_ACTION := "delete"

  lemma {:induction false} SubsetSize<T>(a: set<T>, b: set<T>)
    requires a <= b
    ensures |a| <= |b| && (|a| == |b| <==> a == b)
  {
    assert b == a + (b - a);
  }

  lemma TimesMonotone(a: int, b: int, c: int)
    requires a <= b && c >= 0
    ensures a * c <= b * c && c * a <= c * b
  {
  }

  /** The remainder of Go, which has the sign of a. */
  function Remainder(a: int, n: int): (r: int)
    requires n > 0
    ensures -n < r < n && (a >= 0 ==> r >= 0)
  {
    if a >= 0 then a % n else -(-a % n)
  }
}
