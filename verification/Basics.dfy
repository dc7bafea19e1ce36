/** What several modules share: optional values, the numbers below n, and sizes of sets. */
module Basics {

  datatype Option<T> = None | Some(value: T)

  ghost function Below(n: nat): (all: set<nat>)
    ensures forall d: nat :: d in all <==> d < n
    ensures |all| == n
  {
    if n == 0 then {} else Below(n - 1) + {n - 1}
  }

  lemma {:induction false} SubsetSize<T>(a: set<T>, b: set<T>)
    requires a <= b
    ensures |a| <= |b|
    ensures |a| == |b| ==> a == b
  {
    if a != {} {
      var x :| x in a;
      SubsetSize(a - {x}, b - {x});
    }
  }
}
