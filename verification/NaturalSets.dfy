/**
  The natural numbers below a bound, as a set of that size.
*/
module NaturalSets {
  function Numbers(n: nat): (all: set<nat>)
    ensures |all| == n && forall i: nat :: i in all <==> i < n
  {
    if n == 0 then {} else Numbers(n - 1) + {n - 1}
  }
}
