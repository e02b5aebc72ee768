/** Counting facts about finite sets of numbers and sequences without repetition. */
module Counting {
  /** The numbers below n. */
  function Below(n: nat): (r: set<nat>)
    ensures |r| == n
    ensures forall i: nat :: i in r <==> i < n
  {
    if n == 0 then {} else Below(n - 1) + {n - 1}
  }

  ghost predicate Distinct<T>(q: seq<T>) {
    forall i, j :: 0 <= i < j < |q| ==> q[i] != q[j]
  }

  function Elements<T>(q: seq<T>): set<T> {
    set x | x in q
  }

  lemma {:induction false} DistinctCount<T>(q: seq<T>)
    requires Distinct(q)
    ensures |Elements(q)| == |q|
    decreases |q|
  {
    if q == [] {
      assert Elements(q) == {};
    } else {
      DistinctCount(q[1..]);
      assert q == [q[0]] + q[1..];
      assert Elements(q) == Elements(q[1..]) + {q[0]};
    }
  }

  lemma ElementsStep<T>(q: seq<T>, x: T)
    ensures Elements(q + [x]) == Elements(q) + {x}
    ensures Distinct(q) && x !in Elements(q) ==> Distinct(q + [x])
  {
  }

  lemma FourParts<T(!new)>(all: set<T>, a: set<T>, b: set<T>, c: set<T>, d: set<T>)
    requires forall x :: x in all <==> x in a || x in b || x in c || x in d
    requires a !! b !! c !! d
    ensures |all| == |a| + |b| + |c| + |d|
  {
    assert all == a + b + c + d;
  }
}
