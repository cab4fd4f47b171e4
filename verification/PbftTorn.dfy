/**
  What a crash between the two writes of entering a view can do. The view is on disk and
  the proposal it came with is not, so the replica reloads ready to vote for anything. When
  those that crash so in one view are with the faulty ones a vote quorum, they decide
  another value than the one that was locked.
  */
module PbftTorn {
  import opened Options
  import opened Quorums
  import opened PbftReplica
  import opened PbftSystem
  import opened PbftQuorums
  import opened PbftTheorems
  import opened PbftScripts
  import opened PbftEvidence

  // ------------------------------------------------------------------- half entering

  function Halves(nodes: set<Node>): set<(Node, nat)> {
    set p | p in nodes :: (p, 1)
  }

  /** These members have half entered view 1, and nothing else has changed. */
  ghost predicate HalfWithin(c: Config, nodes: set<Node>, s: System, s': System) {
    && |s.replicas| == c.n && |s'.replicas| == c.n && s'.signed == s.signed && s'.half == s.half + Halves(nodes)
    && (forall p: Node :: p < c.n && p !in nodes ==> s'.replicas[p] == s.replicas[p])
    && SameDecisions(c, s, s')
  }

  /** In view 0, in which it voted. */
  ghost predicate AllVotedIn(c: Config, s: System, nodes: set<Node>)
    requires |s.replicas| == c.n
  {
    forall p :: p in nodes ==>
      && c.Correct(p) && s.replicas[p].view == 0 && s.replicas[p].highestVcSent <= 1
      && s.replicas[p].myPrepare.Some? && s.replicas[p].myPrepare.value.0 == 0
  }

  lemma HalfEnterOne(c: Config, s0: System, s: System, leader: Node, wishes: map<Node, Wish>, vcs: seq<Complaint>,
                     best: Option<Cert>, p: Node) returns (s': System)
    requires Reach(c, s0, s) && |s.replicas| == c.n && Announced(c, s.signed, leader, wishes, vcs, best)
    requires best.Some? && AllVotedIn(c, s, {p})
    ensures Reach(c, s0, s') && HalfWithin(c, {p}, s, s') && AllWaiting(c, s', {p}, 1)
  {
    assert p in {p};
    EntersOn(c, s.signed, leader, wishes, vcs, best, p, s.replicas[p]);
    var (r, out) := EnterView(p, s.replicas[p], 1, ValueOf(best));
    s' := HalfWay(s, p, ValueOf(best));
    ReachStep(c, s0, s, s', HalfEnter(p, Announcement(leader, vcs, best), r, out));
    HalfWaySays(c, s, p, ValueOf(best));
  }

  function HalfWay(s: System, p: Node, proposal: Option<Value>): System
    requires p < |s.replicas|
  {
    System(s.replicas[p := Reload(Entering(s.replicas[p], 1, proposal).disk)], s.signed, s.half + {(p, 1)})
  }

  lemma HalfWaySays(c: Config, s: System, p: Node, proposal: Option<Value>)
    requires |s.replicas| == c.n && AllVotedIn(c, s, {p}) && p < c.n
    ensures var s' := HalfWay(s, p, proposal); HalfWithin(c, {p}, s, s') && AllWaiting(c, s', {p}, 1)
  {
    assert p in {p};
    assert Halves({p}) == {(p, 1)};
  }

  lemma HalfEnterJoins(c: Config, s: System, next: System, s': System, p: Node, nodes: set<Node>)
    requires p in nodes && HalfWithin(c, {p}, s, next) && HalfWithin(c, nodes - {p}, next, s')
    requires AllWaiting(c, next, {p}, 1) && AllWaiting(c, s', nodes - {p}, 1)
    ensures HalfWithin(c, nodes, s, s') && AllWaiting(c, s', nodes, 1)
  {
    assert p in {p};
    assert Halves(nodes) == Halves({p}) + Halves(nodes - {p});
  }

  lemma NoneHalfEnters(c: Config, s: System)
    requires |s.replicas| == c.n
    ensures HalfWithin(c, {}, s, s)
  {
    assert s.half + Halves({}) == s.half;
  }

  lemma OthersVoted(c: Config, s: System, next: System, p: Node, nodes: set<Node>)
    requires HalfWithin(c, {p}, s, next) && AllVotedIn(c, s, nodes)
    ensures AllVotedIn(c, next, nodes - {p})
  {
  }

  lemma HalfEnterFirst(c: Config, s0: System, s: System, leader: Node, wishes: map<Node, Wish>, vcs: seq<Complaint>,
                       best: Option<Cert>, nodes: set<Node>) returns (p: Node, next: System)
    requires Reach(c, s0, s) && |s.replicas| == c.n && Announced(c, s.signed, leader, wishes, vcs, best)
    requires best.Some? && AllVotedIn(c, s, nodes) && nodes != {}
    ensures p in nodes && Reach(c, s0, next) && HalfWithin(c, {p}, s, next) && AllWaiting(c, next, {p}, 1)
    ensures AllVotedIn(c, next, nodes - {p})
  {
    p :| p in nodes;
    next := HalfEnterOne(c, s0, s, leader, wishes, vcs, best, p);
    OthersVoted(c, s, next, p, nodes);
  }

  /** These members half enter view 1, and wait for whatever its leader sends. */
  lemma HalfEnterAll(c: Config, s0: System, s: System, leader: Node, wishes: map<Node, Wish>, vcs: seq<Complaint>,
                     best: Option<Cert>, nodes: set<Node>) returns (s': System)
    requires Reach(c, s0, s) && |s.replicas| == c.n && Announced(c, s.signed, leader, wishes, vcs, best)
    requires best.Some? && AllVotedIn(c, s, nodes)
    ensures Reach(c, s0, s') && HalfWithin(c, nodes, s, s') && AllWaiting(c, s', nodes, 1)
    decreases |nodes|
  {
    if nodes == {} {
      s' := s;
      NoneHalfEnters(c, s);
    } else {
      var p, next := HalfEnterFirst(c, s0, s, leader, wishes, vcs, best, nodes);
      s' := HalfEnterAll(c, s0, next, leader, wishes, vcs, best, nodes - {p});
      HalfEnterJoins(c, s, next, s', p, nodes);
    }
  }

  // ------------------------------------------------------------------- the members

  /** How many correct members make a vote quorum with the faulty ones. */
  function CrewSize(n: nat): nat
    requires n >= 1
  {
    (n + MaxFaulty(n)) / 2 + 1 - MaxFaulty(n)
  }

  function Torn(n: nat): Config
    requires n >= 1
  {
    Config(n, Range(n - MaxFaulty(n), n))
  }

  /** They vote in both views, and half enter the second. */
  function Crew(n: nat): set<Node>
    requires n >= 1
  {
    Range(0, CrewSize(n))
  }

  /** The correct complainers. */
  function Callers(n: nat): set<Node>
    requires n >= 1
  {
    Range(1, MaxFaulty(n) + 2)
  }

  lemma TornNumbers(n: nat)
    requires n >= 2 && n % 3 != 0
    ensures 2 <= CrewSize(n) <= n - MaxFaulty(n) && MaxFaulty(n) + 2 <= n - MaxFaulty(n)
    ensures 2 * (CrewSize(n) + MaxFaulty(n)) > n + MaxFaulty(n) >= 2 * (CrewSize(n) + MaxFaulty(n)) - 2
  {
  }

  lemma TornConfig(n: nat)
    requires n >= 2 && n % 3 != 0
    ensures Torn(n).Valid() && Torn(n).F() == MaxFaulty(n)
  {
    TornNumbers(n);
  }

  lemma TornLeaders(n: nat)
    requires n >= 2
    ensures Torn(n).LeaderOf(0) == 0 && Torn(n).LeaderOf(1) == 1
  {
    SmallRemainder(0, n);
    SmallRemainder(1, n);
  }

  lemma TornMembers(n: nat)
    requires n >= 2 && n % 3 != 0
    ensures forall p :: p in Crew(n) || p in Callers(n) ==> Torn(n).Correct(p)
    ensures 0 in Crew(n) && 1 in Crew(n) && 1 in Callers(n) && 0 !in Callers(n)
  {
    TornNumbers(n);
  }

  lemma DisjointSize(a: set<Node>, b: set<Node>)
    requires a !! b
    ensures |a + b| == |a| + |b|
  {
  }

  lemma CrewApart(n: nat)
    requires n >= 2 && n % 3 != 0
    ensures Crew(n) !! Torn(n).faulty && Crew(n) + Torn(n).faulty <= Nodes(n)
  {
    TornNumbers(n);
  }

  lemma CallersApart(n: nat)
    requires n >= 2 && n % 3 != 0
    ensures Callers(n) !! Torn(n).faulty && Callers(n) + Torn(n).faulty <= Nodes(n)
  {
    TornNumbers(n);
  }

  lemma CrewQuorum(n: nat)
    requires n >= 2 && n % 3 != 0
    ensures Exact(Torn(n), Crew(n) + Torn(n).faulty)
  {
    TornConfig(n);
    TornNumbers(n);
    CrewApart(n);
    DisjointSize(Crew(n), Torn(n).faulty);
  }

  lemma CallersEnough(n: nat)
    requires n >= 2 && n % 3 != 0
    ensures |Callers(n) + Torn(n).faulty| == 2 * Torn(n).F() + 1
  {
    TornConfig(n);
    TornNumbers(n);
    CallersApart(n);
    DisjointSize(Callers(n), Torn(n).faulty);
  }

  /** The first two members lead the first two views; the crew votes and the callers complain. */
  ghost predicate Cast(c: Config, crew: set<Node>, callers: set<Node>) {
    && c.Valid() && c.LeaderOf(0) == 0 && c.LeaderOf(1) == 1
    && (forall p :: p in crew || p in callers ==> c.Correct(p))
    && 0 in crew && 1 in crew && 1 in callers && 0 !in callers
    && Exact(c, crew + c.faulty)
    && callers !! c.faulty && callers + c.faulty <= Nodes(c.n) && |callers + c.faulty| == 2 * c.F() + 1
  }

  lemma TornCast(n: nat)
    requires n >= 2 && n % 3 != 0
    ensures Cast(Torn(n), Crew(n), Callers(n))
  {
    TornConfig(n);
    TornLeaders(n);
    TornMembers(n);
    CrewQuorum(n);
    CallersApart(n);
    CallersEnough(n);
  }

  // ------------------------------------------------------------------- the lock

  /** A state reached without such a crash is one of a run, so the invariant holds. */
  lemma ReachedInv(c: Config, s: System)
    requires c.Valid() && Reach(c, StartOf(c), s) && s.half == {}
    ensures Inv(c, s) && Sparse(c, s)
  {
    var path :| IsPath(c, path, StartOf(c), s);
    PathIsRun(c, path, s);
    forall k | 0 <= k < |path|
      ensures Sparse(c, path[k])
    {
      HalfGrows(c, path, StartOf(c), s, k);
      NoneIsSparse(c, path[k]);
    }
    RunInv(c, path, |path| - 1);
  }

  lemma NoneIsSparse(c: Config, s: System)
    requires c.Valid() && s.half == {}
    ensures Sparse(c, s)
  {
    forall view: nat
      ensures !c.VoteQuorum(|HalfEntered(c, s, view) + c.faulty|)
    {
      assert HalfEntered(c, s, view) == {};
      assert {} + c.faulty == c.faulty;
    }
  }

  /** There is a claim of highest view, unless there is none that verifies. */
  lemma BestOf(c: Config, wishes: map<Node, Wish>, nv: nat, some: set<Node>) returns (q: Node)
    requires c.n >= 1 && some != {} && some <= Claimants(c, wishes, nv)
    ensures q in some && forall p :: p in some ==> wishes[p].claim.value.view <= wishes[q].claim.value.view
    decreases |some|
  {
    var p :| p in some;
    if some == {p} {
      q := p;
    } else {
      var best := BestOf(c, wishes, nv, some - {p});
      q := if wishes[p].claim.value.view > wishes[best].claim.value.view then p else best;
    }
  }

  lemma SelectBest(c: Config, wishes: map<Node, Wish>, nv: nat) returns (best: Option<Cert>)
    requires c.n >= 1
    ensures Selects(c, wishes, nv, best)
  {
    best := None;
    if Claimants(c, wishes, nv) != {} {
      var q := BestOf(c, wishes, nv, Claimants(c, wishes, nv));
      best := wishes[q].claim;
    }
  }

  /** View 0: member 0 decides the first value, and the crew is committed to it. */
  lemma LockingRound(c: Config, crew: set<Node>, callers: set<Node>, a: Value) returns (s: System)
    requires Cast(c, crew, callers)
    ensures Reach(c, StartOf(c), s) && Within(c, crew, StartOf(c), s) && Ruled(c, StartOf(c), s, crew, 0, 0, a)
  {
    ReachSelf(c, StartOf(c));
    StartWaits(c, crew);
    s := Round(c, StartOf(c), StartOf(c), crew, 0, 0, a);
  }

  lemma CrewCommits(c: Config, s: System, crew: set<Node>, a: Value)
    requires |s.replicas| == c.n && Exact(c, crew + c.faulty)
    requires forall p :: p in crew ==> SentCommit(s.signed, p, 0, a)
    ensures CommitPossible(c, s, 0, a)
  {
    SubsetSize(crew + c.faulty, PossibleCommitters(c, s, 0, a));
  }

  /** Member 1 starts over, which loses the complaints it has recorded and nothing of its lock. */
  lemma Restarted(c: Config, s: System) returns (s': System)
    requires c.Valid() && Reach(c, StartOf(c), s) && |s.replicas| == c.n && s.half == {} && c.Correct(1)
    ensures Reach(c, StartOf(c), s') && Within(c, {1}, s, s') && SameDecisions(c, s, s')
    ensures s'.replicas[1].viewchanges == map[]
    ensures s'.replicas[1].view == s.replicas[1].view && s'.replicas[1].highestVcSent == s.replicas[1].highestVcSent
  {
    ReachedInv(c, s);
    assert ReplicaInv(c, s.signed, 1, s.replicas[1]);
    s' := System(s.replicas[1 := Reload(s.replicas[1].disk)], s.signed, s.half);
    ReachStep(c, StartOf(c), s, s', Restart(1));
  }

  lemma HeldClaimsKnown(c: Config, s: System, nodes: set<Node>)
    requires c.n >= 1 && Sound(c, s) && forall p :: p in nodes ==> c.Correct(p)
    ensures ClaimsKnown(c, s, nodes)
  {
    forall q | q in nodes
      ensures ClaimKnown(c, s.signed, s.replicas[q].prepared)
    {
      assert ReplicaInv(c, s.signed, q, s.replicas[q]);
    }
  }

  lemma CallersUndecided(c: Config, s: System, s': System, crew: set<Node>, callers: set<Node>, a: Value)
    requires Within(c, crew, StartOf(c), s) && Ruled(c, StartOf(c), s, crew, 0, 0, a) && 0 !in callers
    requires Within(c, {1}, s, s') && SameDecisions(c, s, s') && 1 < c.n && 1 in crew
    requires s'.replicas[1].view == s.replicas[1].view && s'.replicas[1].highestVcSent == s.replicas[1].highestVcSent
    requires forall p :: p in callers ==> c.Correct(p)
    ensures AllUndecided(c, s', callers)
  {
    forall p | p in callers
      ensures InView(s'.replicas[p], 0) && s'.replicas[p].decided.None?
    {
      if p in crew {
        assert InView(s.replicas[p], 0);
      }
    }
  }

  /** The crew is where its commitment left it, or has complained toward view 1. */
  ghost predicate Lingers(c: Config, s: System, crew: set<Node>, a: Value) {
    && |s.replicas| == c.n && 1 < c.n && s.half == {}
    && (forall p :: p in crew ==> c.Correct(p) && s.replicas[p].view == 0 && s.replicas[p].highestVcSent <= 1)
    && (forall p :: p in crew ==> SentCommit(s.signed, p, 0, a) && SentPrepare(s.signed, p, 0, a))
    && s.replicas[0].decided == Some(a) && s.replicas[1].decided.None?
  }

  /** View 1 is announced. */
  lemma LockedAnnouncement(c: Config, crew: set<Node>, callers: set<Node>, s: System, a: Value)
    returns (s': System, wishes: map<Node, Wish>, vcs: seq<Complaint>, best: Option<Cert>)
    requires Cast(c, crew, callers)
    requires Reach(c, StartOf(c), s) && Within(c, crew, StartOf(c), s) && Ruled(c, StartOf(c), s, crew, 0, 0, a)
    ensures Reach(c, StartOf(c), s') && Lingers(c, s', crew, a) && Announced(c, s'.signed, 1, wishes, vcs, best)
  {
    var s1 := Restarted(c, s);
    ReachedInv(c, s1);
    HeldClaimsKnown(c, s1, callers);
    CallersUndecided(c, s, s1, crew, callers, a);
    wishes := WishesOf(c, s1, callers + c.faulty);
    best := SelectBest(c, wishes, 1);
    var s2, list := ComplainAndLead(c, StartOf(c), s1, 1, callers, best);
    s', vcs := s2, list;
    CrewLingers(c, s, s1, s2, crew, callers, a);
  }

  lemma CrewLingers(c: Config, s: System, s1: System, s2: System, crew: set<Node>, callers: set<Node>, a: Value)
    requires Cast(c, crew, callers)
    requires Within(c, crew, StartOf(c), s) && Ruled(c, StartOf(c), s, crew, 0, 0, a)
    requires Within(c, {1}, s, s1) && Within(c, callers, s1, s2) && AllGathered(c, s1, s2, callers)
    requires SameDecisions(c, s, s1)
    ensures Lingers(c, s2, crew, a)
  {
    CrewStays(c, s, s1, s2, crew, callers);
    forall p | p in crew
      ensures SentCommit(s2.signed, p, 0, a) && SentPrepare(s2.signed, p, 0, a)
    {
      assert SentCommit(s.signed, p, 0, a) && SentPrepare(s.signed, p, 0, a);
    }
  }

  lemma CrewStays(c: Config, s: System, s1: System, s2: System, crew: set<Node>, callers: set<Node>)
    requires Within(c, {1}, s, s1) && Within(c, callers, s1, s2) && AllGathered(c, s1, s2, callers)
    requires SameDecisions(c, s, s1) && 1 in callers && 0 !in callers && 1 < c.n
    requires forall p :: p in crew ==> p < c.n && InView(s.replicas[p], 0)
    ensures forall p :: p in crew ==> s2.replicas[p].view == 0 && s2.replicas[p].highestVcSent <= 1
    ensures s2.replicas[0].decided == s.replicas[0].decided && s2.replicas[1].decided == s.replicas[1].decided
  {
  }

  /** What the complaints select is the locked value, so each of the crew has a proposal to enter with. */
  lemma LockedBest(c: Config, s: System, crew: set<Node>, wishes: map<Node, Wish>, vcs: seq<Complaint>,
                   best: Option<Cert>, a: Value)
    requires c.Valid() && Reach(c, StartOf(c), s) && Lingers(c, s, crew, a) && Exact(c, crew + c.faulty)
    requires Announced(c, s.signed, 1, wishes, vcs, best)
    ensures best.Some? && AllVotedIn(c, s, crew)
  {
    ReachedInv(c, s);
    CrewCommits(c, s, crew, a);
    AnnouncedEvidence(c, s, 1, wishes, vcs, best);
    LockIn(c, s, 1, wishes, best, 0, a);
    CrewVoted(c, s, crew, a);
  }

  lemma AnnouncedEvidence(c: Config, s: System, leader: Node, wishes: map<Node, Wish>, vcs: seq<Complaint>,
                          best: Option<Cert>)
    requires c.n >= 1 && Announced(c, s.signed, leader, wishes, vcs, best)
    ensures Evidence(c, s.signed, 1, wishes)
  {
    assert Wishers(wishes, 1) == wishes.Keys;
  }

  lemma CrewVoted(c: Config, s: System, crew: set<Node>, a: Value)
    requires c.n >= 1 && Sound(c, s) && Lingers(c, s, crew, a)
    ensures AllVotedIn(c, s, crew)
  {
    forall p | p in crew
      ensures s.replicas[p].myPrepare == Some((0, a))
    {
      assert ReplicaInv(c, s.signed, p, s.replicas[p]);
    }
  }

  /** So the crew is told to go on with it, but half enters. */
  lemma CrewHalfEnters(c: Config, crew: set<Node>, callers: set<Node>, a: Value) returns (s': System)
    requires Cast(c, crew, callers)
    ensures Reach(c, StartOf(c), s') && |s'.replicas| == c.n && s'.half == Halves(crew) && AllWaiting(c, s', crew, 1)
    ensures s'.replicas[0].decided == Some(a) && s'.replicas[1].decided.None?
  {
    var s := LockingRound(c, crew, callers, a);
    var s1, wishes, vcs, best := LockedAnnouncement(c, crew, callers, s, a);
    LockedBest(c, s1, crew, wishes, vcs, best, a);
    s' := HalfEnterAll(c, StartOf(c), s1, 1, wishes, vcs, best, crew);
    assert {} + Halves(crew) == Halves(crew);
  }

  /** View 1: the crew votes for another value, and member 1 decides it. */
  lemma TornDisagreement(n: nat, a: Value, b: Value) returns (s: System)
    requires n >= 2 && n % 3 != 0
    ensures var c := Torn(n);
            && Reach(c, StartOf(c), s) && |s.replicas| == n && s.half == Halves(Crew(n))
            && s.replicas[0].decided == Some(a) && s.replicas[1].decided == Some(b)
  {
    var c := Torn(n);
    TornCast(n);
    var s1 := CrewHalfEnters(c, Crew(n), Callers(n), a);
    s := Round(c, StartOf(c), s1, Crew(n), 1, 1, b);
  }
}
