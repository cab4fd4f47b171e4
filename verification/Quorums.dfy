/** Options, and counting facts about sets of node indices, shared by the protocols. */
module Options {
  datatype Option<+T> = None | Some(value: T)
}

module Quorums {

  /** The indices 0..n-1 of the n members. */
  function Nodes(n: nat): (s: set<nat>)
    ensures forall p: nat :: p in s <==> p < n
    ensures |s| == n
  {
    if n == 0 then {} else Nodes(n - 1) + {n - 1}
  }

  lemma {:induction false} SubsetSize<T>(a: set<T>, b: set<T>)
    requires a <= b
    ensures |a| <= |b|
  {
    assert b == a + (b - a);
  }

  /** Two sets of members share at least |a| + |b| - n members. */
  lemma Overlap(n: nat, a: set<nat>, b: set<nat>)
    requires a <= Nodes(n) && b <= Nodes(n)
    ensures |a * b| >= |a| + |b| - n
  {
    SubsetSize(a + b, Nodes(n));
    assert |a + b| == |a| + |b| - |a * b|;
  }

  /** A set larger than the faulty set has a member outside it. */
  lemma OutsideMember(a: set<nat>, faulty: set<nat>) returns (p: nat)
    requires |a| > |faulty|
    ensures p in a && p !in faulty
  {
    if forall q :: q in a ==> q in faulty {
      SubsetSize(a, faulty);
    }
    p :| p in a && p !in faulty;
  }
}
