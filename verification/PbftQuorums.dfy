/** Quorum arguments: what two vote quorums, and a vote quorum and a view-change quorum, share. */
module PbftQuorums {
  import opened Options
  import opened Quorums
  import opened PbftReplica
  import opened PbftSystem

  lemma VoteQuorumsMeet(c: Config, a: set<Node>, b: set<Node>) returns (p: Node)
    requires c.Bounded() && a <= Nodes(c.n) && b <= Nodes(c.n)
    requires c.VoteQuorum(|a|) && c.VoteQuorum(|b|)
    ensures p in a && p in b && c.Correct(p)
  {
    Overlap(c.n, a, b);
    p := OutsideMember(a * b, c.faulty);
  }

  lemma MixedCount(n: nat, a: nat, b: nat)
    requires n >= 1 && n % 3 != 0 && 2 * a > n + MaxFaulty(n) && b >= 2 * MaxFaulty(n) + 1
    ensures a + b > n + MaxFaulty(n)
  {
    var f := MaxFaulty(n);
    assert n <= 3 * f + 2;
  }

  lemma EvidenceMeets(c: Config, a: set<Node>, b: set<Node>) returns (p: Node)
    requires c.Valid() && a <= Nodes(c.n) && b <= Nodes(c.n)
    requires c.VoteQuorum(|a|) && |b| >= 2 * c.F() + 1
    ensures p in a && p in b && c.Correct(p)
  {
    MixedCount(c.n, |a|, |b|);
    Overlap(c.n, a, b);
    p := OutsideMember(a * b, c.faulty);
  }

  /** The nodes lo..hi-1. */
  function Range(lo: nat, hi: nat): (s: set<Node>)
    requires lo <= hi
    ensures forall p: nat :: p in s <==> lo <= p < hi
    ensures |s| == hi - lo
  {
    if lo == hi then {} else Range(lo, hi - 1) + {hi - 1}
  }

  ghost predicate QuorumsOf(n: nat, faulty: set<Node>, a: set<Node>, b: set<Node>)
    requires n >= 1
  {
    && faulty <= Nodes(n) && a <= Nodes(n) && b <= Nodes(n) && |faulty| <= MaxFaulty(n)
    && 2 * |a| > n + MaxFaulty(n) && |b| >= 2 * MaxFaulty(n) + 1
  }

  /**
    In a system of n, every vote quorum and every view-change quorum share a correct member, whoever the f faulty are.
    */
  ghost predicate ThresholdsMeet(n: nat)
    requires n >= 1
  {
    forall faulty, a, b :: QuorumsOf(n, faulty, a, b) ==> a * b - faulty != {}
  }

  /**
    The code's two thresholds meet in a correct member exactly when n is not a multiple
    of three. With n = 3f + 3 they can share the f faulty members alone.
    */
  lemma ThresholdsMeetExactly(n: nat)
    requires n >= 1
    ensures ThresholdsMeet(n) <==> n % 3 != 0
  {
    if n % 3 != 0 {
      ThresholdsMeetOtherwise(n);
    } else {
      ThresholdsMissWithTripleN(n, n / 3 - 1);
    }
  }

  lemma ThresholdsMeetOtherwise(n: nat)
    requires n >= 1 && n % 3 != 0
    ensures ThresholdsMeet(n)
  {
    forall faulty, a, b | QuorumsOf(n, faulty, a, b)
      ensures a * b - faulty != {}
    {
      var p := EvidenceMeets(Config(n, faulty), a, b);
      assert p in a * b - faulty;
    }
  }

  lemma ThresholdsMissWithTripleN(n: nat, f: nat)
    requires n == 3 * f + 3
    ensures !ThresholdsMeet(n)
  {
    var a, b, faulty := Range(0, 2 * f + 2), Range(f + 2, n), Range(f + 2, 2 * f + 2);
    assert a * b == faulty;
    assert MaxFaulty(n) == f;
    assert QuorumsOf(n, faulty, a, b);
    assert a * b - faulty == {};
  }

  /** A verified certificate without forged signatures is backed by a vote quorum of preparers. */
  lemma GoodCertIsCertifiable(c: Config, signed: set<Signature>, cert: Cert)
    requires c.Bounded() && GoodCert(c, signed, cert)
    ensures Certifiable(c, signed, cert.view, cert.value)
  {
    var a := SupportersUpTo(c, cert, |cert.sigs|);
    forall p | p in a
      ensures p in Preparers(c, signed, cert.view, cert.value)
    {
      var i: nat :| i < |cert.sigs| && CountsAt(c, cert, i) && cert.sigs[i].0 == p;
      assert Known(c, signed, cert.sigs[i].1);
    }
    SubsetSize(a, Preparers(c, signed, cert.view, cert.value));
  }

  /** At most one value is certifiable in a view. */
  lemma UniqueInView(c: Config, s: System, v: nat, m: Value, m': Value)
    requires c.Bounded() && |s.replicas| == c.n
    requires forall p: Node :: c.Correct(p) ==> VoteInv(s.signed, p, s.replicas[p])
    requires Certifiable(c, s.signed, v, m) && Certifiable(c, s.signed, v, m')
    ensures m == m'
  {
    var p := VoteQuorumsMeet(c, Preparers(c, s.signed, v, m), Preparers(c, s.signed, v, m'));
    assert SentPrepare(s.signed, p, v, m) && SentPrepare(s.signed, p, v, m');
  }

  /** A certifiable value was prepared by some correct member. */
  lemma CertifiableHasPreparer(c: Config, signed: set<Signature>, v: nat, m: Value) returns (p: Node)
    requires c.Bounded() && Certifiable(c, signed, v, m)
    ensures c.Correct(p) && SentPrepare(signed, p, v, m)
  {
    p := VoteQuorumsMeet(c, Preparers(c, signed, v, m), Preparers(c, signed, v, m));
  }

  /** And by one that did not half enter the view, where those and the faulty are no quorum. */
  lemma CertifiableHasWholePreparer(c: Config, s: System, v: nat, m: Value) returns (p: Node)
    requires c.n >= 1 && Sparse(c, s) && Certifiable(c, s.signed, v, m)
    ensures c.Correct(p) && SentPrepare(s.signed, p, v, m) && (p, v) !in s.half
  {
    var preparers, others := Preparers(c, s.signed, v, m), HalfEntered(c, s, v) + c.faulty;
    if preparers <= others {
      SubsetSize(preparers, others);
    }
    p :| p in preparers && p !in others;
  }

  /**
    Lock-in. Whoever's wishes enter view w, the selection from them is m for every (v, m)
    below w that has committed or can still commit: some correct member is both among the
    possible committers and among the complainers, so it has committed already, and its
    claim covers the commit; a higher claim agrees with m because its preparers did.
    */
  lemma LockIn(c: Config, s: System, w: nat, wishes: map<Node, Wish>, best: Option<Cert>, v: nat, m: Value)
    requires c.Valid() && Inv(c, s) && Sparse(c, s)
    requires Evidence(c, s.signed, w, wishes) && Selects(c, wishes, w, best)
    requires v < w && CommitPossible(c, s, v, m)
    ensures best.Some? && best.value.value == m
  {
    var q := EvidenceMeets(c, PossibleCommitters(c, s, v, m), Wishers(wishes, w));
    var claim := wishes[q].claim;
    assert GoodWish(c, s.signed, q, wishes[q]);
    assert SentViewChange(s.signed, q, w, claim);
    assert ReplicaInv(c, s.signed, q, s.replicas[q]);
    assert SentCommit(s.signed, q, v, m);
    assert q in Claimants(c, wishes, w);
    assert best.Some? && v <= claim.value.view <= best.value.view;
    var cert := best.value;
    assert GoodCert(c, s.signed, cert);
    GoodCertIsCertifiable(c, s.signed, cert);
    if cert.view == v {
      UniqueInView(c, s, v, m, cert.value);
    } else {
      var p := CertifiableHasWholePreparer(c, s, cert.view, cert.value);
    }
  }
}
