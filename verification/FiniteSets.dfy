/** Sizes of finite sets. */
module FiniteSets {

  lemma {:induction false} SubsetSize<T>(a: set<T>, b: set<T>)
    requires a <= b
    ensures |a| <= |b|
    decreases |a|
  {
    if a != {} {
      var x :| x in a;
      SubsetSize(a - {x}, b - {x});
    }
  }

  /** A part as large as the whole is the whole. */
  lemma {:induction false} WholePart<T>(part: set<T>, all: set<T>)
    requires part <= all && |part| == |all|
    ensures part == all
  {
    if !(all <= part) {
      var x :| x in all && x !in part;
      SubsetSize(part, all - {x});
    }
  }

  lemma {:induction false} SubsetOfSize<T>(all: set<T>, n: nat) returns (part: set<T>)
    requires n <= |all|
    ensures part <= all && |part| == n
  {
    if n == 0 { return {}; }
    var x :| x in all;
    var rest := SubsetOfSize(all - {x}, n - 1);
    part := rest + {x};
  }
}
