/**
  Why the theorems need n not to be a multiple of three: with n = 3f + 3 there is a run,
  for every f, in which two correct replicas decide differently. A vote quorum of 2f + 2
  and 2f + 1 complainers then need share none but the f faulty members.
  */
module PbftNecessity {
  import opened Options
  import opened Quorums
  import opened PbftReplica
  import opened PbftSystem
  import opened PbftQuorums
  import opened PbftScripts
  import opened PbftEvidence

  /** With f arbitrary members among 3f + 3: the voters of view 0, the faulty, the complainers. */
  function Early(f: nat): set<Node> {
    {0} + Range(2, f + 3)
  }

  function Faulty(f: nat): set<Node> {
    Range(f + 3, 2 * f + 3)
  }

  function Late(f: nat): set<Node> {
    {1} + Range(2 * f + 3, 3 * f + 3)
  }

  function Split(f: nat): Config {
    Config(3 * f + 3, Faulty(f))
  }

  lemma ThirdOf(f: nat)
    ensures (3 * f + 3 - 1) / 3 == f
  {
  }

  lemma SplitConfig(f: nat)
    ensures Split(f).Bounded() && Split(f).F() == f
  {
    ThirdOf(f);
  }

  lemma SplitLeaders(f: nat)
    ensures Split(f).LeaderOf(0) == 0 && Split(f).LeaderOf(1) == 1
  {
    SmallRemainder(0, Split(f).n);
    SmallRemainder(1, Split(f).n);
  }

  lemma EarlyVoters(f: nat)
    ensures Early(f) + Faulty(f) <= Nodes(3 * f + 3) && |Early(f) + Faulty(f)| == 2 * f + 2
  {
    assert |Early(f)| == f + 2;
    assert Early(f) !! Faulty(f);
  }

  lemma LateVoters(f: nat)
    ensures Late(f) + Faulty(f) <= Nodes(3 * f + 3) && |Late(f) + Faulty(f)| == 2 * f + 1
    ensures 2 !in Late(f) + Faulty(f)
  {
    assert |Late(f)| == f + 1;
    assert Late(f) !! Faulty(f);
  }

  lemma SplitMembers(f: nat)
    ensures forall p :: p in Early(f) || p in Late(f) ==> Split(f).Correct(p)
    ensures forall p :: p in Early(f) ==> p !in Late(f)
    ensures 0 in Early(f) && 2 in Early(f) && 1 in Late(f)
  {
  }

  lemma ExactSize(c: Config, f: nat, voters: set<Node>)
    requires c.n == 3 * f + 3 && voters <= Nodes(c.n) && |voters| == 2 * f + 2
    ensures Exact(c, voters)
  {
    ThirdOf(f);
  }

  lemma OneMoreVoter(voters: set<Node>, more: set<Node>, p: Node)
    requires p !in voters + more
    ensures |voters + {p} + more| == |voters + more| + 1
  {
    assert voters + {p} + more == voters + more + {p};
  }

  lemma SplitQuorums(f: nat)
    ensures var c := Split(f);
            && Exact(c, Early(f) + c.faulty) && Exact(c, Late(f) + {2} + c.faulty)
            && Late(f) + c.faulty <= Nodes(c.n) && |Late(f) + c.faulty| == 2 * c.F() + 1
  {
    var c := Split(f);
    ThirdOf(f);
    EarlyVoters(f);
    LateVoters(f);
    ExactSize(c, f, Early(f) + c.faulty);
    OneMoreVoter(Late(f), c.faulty, 2);
    ExactSize(c, f, Late(f) + {2} + c.faulty);
  }

  /** View 0: member 0 decides the first value. */
  lemma FirstRound(f: nat, a: Value) returns (s: System)
    ensures var c := Split(f);
            && Reach(c, StartOf(c), s) && Within(c, Early(f), StartOf(c), s)
            && Ruled(c, StartOf(c), s, Early(f), 0, 0, a)
  {
    var c := Split(f);
    SplitConfig(f);
    SplitLeaders(f);
    SplitMembers(f);
    SplitQuorums(f);
    ReachSelf(c, StartOf(c));
    StartWaits(c, Early(f));
    s := Round(c, StartOf(c), StartOf(c), Early(f), 0, 0, a);
  }

  lemma FreshLate(f: nat, s: System)
    requires Within(Split(f), Early(f), StartOf(Split(f)), s)
    ensures AllUndecided(Split(f), s, Late(f))
    ensures forall p :: p in Late(f) ==> p < |s.replicas| && s.replicas[p] == Reload(NO_FILE)
  {
    SplitMembers(f);
  }

  lemma NoClaims(c: Config, s: System, nodes: set<Node>)
    requires c.n >= 1 && |s.replicas| == c.n && nodes + c.faulty <= Nodes(c.n)
    requires forall p :: p in nodes ==> s.replicas[p] == Reload(NO_FILE)
    ensures ClaimsKnown(c, s, nodes) && Selects(c, WishesOf(c, s, nodes + c.faulty), 1, None)
  {
    forall p | p in nodes
      ensures p < c.n
    {
      assert p in Nodes(c.n);
    }
  }

  /** The late members' complaints are out and announced, with nothing to propose. */
  lemma LateComplain(f: nat, s: System) returns (s': System, wishes: map<Node, Wish>, vcs: seq<Complaint>)
    requires var c := Split(f); Reach(c, StartOf(c), s) && Within(c, Early(f), StartOf(c), s)
    ensures var c := Split(f);
            && Reach(c, StartOf(c), s') && Within(c, Late(f), s, s') && c.n >= 1
            && Announced(c, s'.signed, 1, wishes, vcs, None)
            && AllReadyToEnter(c, s', Late(f)) && s'.replicas[1].decided.None?
  {
    var c, s0 := Split(f), StartOf(Split(f));
    SplitConfig(f);
    SplitLeaders(f);
    SplitMembers(f);
    SplitQuorums(f);
    FreshLate(f, s);
    NoClaims(c, s, Late(f));
    wishes := WishesOf(c, s, Late(f) + c.faulty);
    s', vcs := ComplainAndLead(c, s0, s, 1, Late(f), None);
  }

  /** The others complain, and view 1 starts without a proposal. */
  lemma ViewChanges(f: nat, s: System, a: Value) returns (s': System)
    requires var c := Split(f);
             && Reach(c, StartOf(c), s) && Within(c, Early(f), StartOf(c), s)
             && Ruled(c, StartOf(c), s, Early(f), 0, 0, a)
    ensures var c := Split(f);
            && Reach(c, StartOf(c), s') && Within(c, Late(f) + {2}, s, s') && AllWaiting(c, s', Late(f) + {2}, 1)
            && s'.replicas[1].decided.None?
  {
    var c, s0 := Split(f), StartOf(Split(f));
    SplitMembers(f);
    var s1, wishes, vcs := LateComplain(f, s);
    assert InView(s.replicas[2], 0);
    assert s1.replicas[2] == s.replicas[2];
    assert AllReadyToEnter(c, s1, Late(f) + {2});
    s' := EnterAll(c, s0, s1, 1, wishes, vcs, Late(f) + {2});
  }

  /** View 1: member 1 decides the second value. */
  lemma Disagreement(f: nat, a: Value, b: Value) returns (s: System)
    ensures var c := Split(f);
            && Reach(c, StartOf(c), s) && |s.replicas| == c.n && s.half == {}
            && s.replicas[0].decided == Some(a) && s.replicas[1].decided == Some(b)
  {
    var c, s0 := Split(f), StartOf(Split(f));
    SplitConfig(f);
    SplitLeaders(f);
    SplitMembers(f);
    SplitQuorums(f);
    var s1 := FirstRound(f, a);
    var s2 := ViewChanges(f, s1, a);
    assert s2.replicas[0] == s1.replicas[0];
    s := Round(c, s0, s2, Late(f) + {2}, 1, 1, b);
  }
}
