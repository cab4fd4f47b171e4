/**
  Exactly when all correct replicas agree: by the number of members, and of crashes between the two writes of entering
  a view.
  */
module PbftExact {
  import opened Quorums
  import opened PbftReplica
  import opened PbftSystem
  import opened PbftSafety
  import opened PbftTheorems
  import opened PbftScripts
  import opened PbftNecessity
  import opened PbftTorn

  /** In every view at most h correct members crashed between the two writes of entering it. */
  ghost predicate AtMost(c: Config, run: seq<System>, h: nat) {
    forall k, view: nat :: 0 <= k < |run| ==> |HalfEntered(c, run[k], view)| <= h
  }

  ghost predicate Disagrees(c: Config, h: nat, run: seq<System>, i: nat, p: Node, j: nat, q: Node) {
    && c.Bounded() && IsRun(c, run) && AtMost(c, run, h)
    && i < |run| && j < |run| && c.Correct(p) && c.Correct(q)
    && run[i].replicas[p].decided.Some? && run[j].replicas[q].decided.Some?
    && run[i].replicas[p].decided != run[j].replicas[q].decided
  }

  /**
    Correct replicas never hold different decisions, in any run of n members with at most f faulty and h such crashes
    a view.
    */
  ghost predicate AgreesWith(n: nat, h: nat) {
    forall faulty, run, i: nat, p: Node, j: nat, q: Node :: !Disagrees(Config(n, faulty), h, run, i, p, j, q)
  }

  ghost predicate Enough(n: nat, h: nat)
    requires n >= 1
  {
    2 * (h + MaxFaulty(n)) > n + MaxFaulty(n)
  }

  lemma FewAreSparse(c: Config, run: seq<System>, h: nat)
    requires c.Bounded() && AtMost(c, run, h) && !Enough(c.n, h)
    ensures AllSparse(c, run)
  {
    forall k, view: nat | 0 <= k < |run|
      ensures !c.VoteQuorum(|HalfEntered(c, run[k], view) + c.faulty|)
    {
      assert |HalfEntered(c, run[k], view)| <= h;
      assert |HalfEntered(c, run[k], view) + c.faulty| <= |HalfEntered(c, run[k], view)| + |c.faulty|;
    }
  }

  lemma FewAgree(n: nat, h: nat)
    requires n >= 1 && n % 3 != 0 && !Enough(n, h)
    ensures AgreesWith(n, h)
  {
    forall faulty, run, i: nat, p: Node, j: nat, q: Node
      ensures !Disagrees(Config(n, faulty), h, run, i, p, j, q)
    {
      if Disagrees(Config(n, faulty), h, run, i, p, j, q) {
        FewAreSparse(Config(n, faulty), run, h);
        Agreement(Config(n, faulty), run, i, p, j, q);
        assert false;
      }
    }
  }

  lemma AloneAgrees(h: nat)
    ensures AgreesWith(1, h)
  {
    forall faulty, run, i: nat, p: Node, j: nat, q: Node
      ensures !Disagrees(Config(1, faulty), h, run, i, p, j, q)
    {
      if Disagrees(Config(1, faulty), h, run, i, p, j, q) {
        if i <= j {
          DecisionIsFinal(Config(1, faulty), run, i, j, p);
        } else {
          DecisionIsFinal(Config(1, faulty), run, j, i, p);
        }
        assert false;
      }
    }
  }

  /** A reached state in which members 0 and 1 have decided differently is the end of a run that disagrees. */
  lemma EndDisagrees(c: Config, s: System, h: nat)
    requires c.Bounded() && Reach(c, StartOf(c), s) && |s.replicas| == c.n && c.Correct(0) && c.Correct(1)
    requires s.replicas[0].decided.Some? && s.replicas[1].decided.Some?
    requires s.replicas[0].decided != s.replicas[1].decided
    requires forall view: nat :: |HalfEntered(c, s, view)| <= h
    ensures !AgreesWith(c.n, h)
  {
    var path :| IsPath(c, path, StartOf(c), s);
    PathIsRun(c, path, s);
    forall k, view: nat | 0 <= k < |path|
      ensures |HalfEntered(c, path[k], view)| <= h
    {
      HalfGrows(c, path, StartOf(c), s, k);
      SubsetSize(HalfEntered(c, path[k], view), HalfEntered(c, s, view));
    }
    assert Disagrees(Config(c.n, c.faulty), h, path, |path| - 1, 0, |path| - 1, 1);
  }

  lemma TripleDisagrees(f: nat, h: nat)
    ensures !AgreesWith(3 * f + 3, h)
  {
    var c := Split(f);
    SplitConfig(f);
    SplitMembers(f);
    var s := Disagreement(f, "a", "b");
    forall view: nat
      ensures |HalfEntered(c, s, view)| <= h
    {
      assert HalfEntered(c, s, view) == {};
    }
    EndDisagrees(c, s, h);
  }

  lemma EnoughDisagree(n: nat, h: nat)
    requires n >= 2 && n % 3 != 0 && Enough(n, h)
    ensures !AgreesWith(n, h)
  {
    var c := Torn(n);
    TornConfig(n);
    TornMembers(n);
    var s := TornDisagreement(n, "a", "b");
    forall view: nat
      ensures |HalfEntered(c, s, view)| <= h
    {
      SubsetSize(HalfEntered(c, s, view), Crew(n));
      TornNumbers(n);
    }
    EndDisagrees(c, s, h);
  }

  ghost predicate Conflict(c: Config, s: System)
    requires c.n >= 1
  {
    exists v: nat, m, v': nat, m' :: Committed(c, s.signed, v, m) && Committed(c, s.signed, v', m') && m != m'
  }

  /** Where two correct replicas decide differently, two commit quorums have been sent for different values. */
  lemma DisagreementIsConflict(c: Config, h: nat, run: seq<System>, i: nat, p: Node, j: nat, q: Node)
    requires Disagrees(c, h, run, i, p, j, q)
    ensures Conflict(c, run[if i <= j then j else i])
  {
    var k := if i <= j then j else i;
    RunSound(c, run, i);
    RunSound(c, run, j);
    RunGrows(c, run, i, k);
    RunGrows(c, run, j, k);
    assert DecideInv(c, run[i].signed, run[i].replicas[p]) && DecideInv(c, run[j].signed, run[j].replicas[q]);
    var m, m' := run[i].replicas[p].decided.value, run[j].replicas[q].decided.value;
    var v: nat :| Committed(c, run[i].signed, v, m);
    var v': nat :| Committed(c, run[j].signed, v', m');
    CommittedGrows(c, run[i].signed, run[k].signed, v, m);
    CommittedGrows(c, run[j].signed, run[k].signed, v', m');
  }

  /**
    With f = (n-1)/3 arbitrary members, and at most h crashes a view between the two writes
    of entering it, agreement holds of every run exactly when n is not a multiple of three
    and h + f is no vote quorum, or there is one member only.
    */
  lemma AgreementExactly(n: nat, h: nat)
    requires n >= 1
    ensures AgreesWith(n, h) <==> n == 1 || (n % 3 != 0 && !Enough(n, h))
  {
    if n == 1 {
      AloneAgrees(h);
    } else if n % 3 == 0 {
      assert n == 3 * (n / 3 - 1) + 3;
      TripleDisagrees(n / 3 - 1, h);
    } else if Enough(n, h) {
      EnoughDisagree(n, h);
    } else {
      FewAgree(n, h);
    }
  }
}
