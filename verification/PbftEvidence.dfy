/** Building a view change: members complain toward view 1, its leader gathers the complaints, and others enter. */
module PbftEvidence {
  import opened Options
  import opened Quorums
  import opened PbftReplica
  import opened PbftSystem
  import opened PbftTheorems
  import opened PbftScripts

  // ---------------------------------------------------------------- complaining

  /** A complaint toward view 1 changes nothing else that lasts. */
  ghost predicate Complained(r: ReplicaState, r': ReplicaState) {
    && r'.view == 0 && r'.highestVcSent == 1
    && r'.decided == r.decided && r'.prepared == r.prepared && r'.viewchanges == r.viewchanges
  }

  ghost predicate AllComplained(c: Config, s: System, s': System, nodes: set<Node>)
    requires |s.replicas| == c.n && |s'.replicas| == c.n
  {
    forall p :: p in nodes ==>
      && p < c.n && Complained(s.replicas[p], s'.replicas[p])
      && SentViewChange(s'.signed, p, 1, s.replicas[p].prepared)
  }

  ghost predicate AllUndecided(c: Config, s: System, nodes: set<Node>)
    requires |s.replicas| == c.n
  {
    forall p :: p in nodes ==> c.Correct(p) && InView(s.replicas[p], 0) && s.replicas[p].decided.None?
  }

  lemma ComplainOne(c: Config, s0: System, s: System, p: Node) returns (s': System)
    requires Reach(c, s0, s) && |s.replicas| == c.n && AllUndecided(c, s, {p})
    ensures Reach(c, s0, s') && Within(c, {p}, s, s') && AllComplained(c, s, s', {p})
  {
    assert p in {p};
    var (r, out) := OnTimeout(p, s.replicas[p]);
    s' := After(s, p, r, out);
    ReachStep(c, s0, s, s', Timeout(p));
    SealedOut(c, s, p, r, ViewChange(p, 1, s.replicas[p].prepared, Garbage));
  }

  lemma ComplainJoins(c: Config, s: System, next: System, s': System, p: Node, rest: set<Node>)
    requires Within(c, {p}, s, next) && Within(c, rest, next, s') && p !in rest
    requires AllComplained(c, s, next, {p}) && AllComplained(c, next, s', rest)
    ensures Within(c, rest + {p}, s, s') && AllComplained(c, s, s', rest + {p})
  {
    assert p in {p};
  }

  /** These members' timers fire. */
  lemma ComplainAll(c: Config, s0: System, s: System, nodes: set<Node>) returns (s': System)
    requires Reach(c, s0, s) && |s.replicas| == c.n && AllUndecided(c, s, nodes)
    ensures Reach(c, s0, s') && Within(c, nodes, s, s') && AllComplained(c, s, s', nodes)
    decreases |nodes|
  {
    s' := s;
    if nodes != {} {
      var p :| p in nodes;
      var next := ComplainOne(c, s0, s, p);
      s' := ComplainAll(c, s0, next, nodes - {p});
      ComplainJoins(c, s, next, s', p, nodes - {p});
      assert nodes - {p} + {p} == nodes;
    }
  }

  // ------------------------------------------------------------------- the NEWVIEW

  /** Complaints toward view 1, each signed by its member and with a claim nobody forged. */
  ghost predicate Pleas(c: Config, signed: set<Signature>, wishes: map<Node, Wish>) {
    forall q :: q in wishes ==> GoodWish(c, signed, q, wishes[q]) && wishes[q].newview == 1
  }

  function WishFor(claim: Option<Cert>, q: Node): Wish {
    Wish(1, claim, Signature(q, ViewChangeSt(1, claim)))
  }

  /** What correct members complain with; a faulty one makes no claim. */
  ghost function WishesOf(c: Config, s: System, nodes: set<Node>): map<Node, Wish>
    requires |s.replicas| == c.n && nodes <= Nodes(c.n)
  {
    map q | q in nodes :: WishFor(if q in c.faulty then None else s.replicas[q].prepared, q)
  }

  ghost predicate ClaimsKnown(c: Config, s: System, nodes: set<Node>)
    requires |s.replicas| == c.n
  {
    forall q :: q in nodes ==> q < c.n && ClaimKnown(c, s.signed, s.replicas[q].prepared)
  }

  lemma WishesArePleas(c: Config, s: System, s': System, nodes: set<Node>)
    requires |s.replicas| == c.n && |s'.replicas| == c.n && s.signed <= s'.signed
    requires nodes + c.faulty <= Nodes(c.n) && nodes !! c.faulty
    requires ClaimsKnown(c, s, nodes) && AllComplained(c, s, s', nodes)
    ensures Pleas(c, s'.signed, WishesOf(c, s, nodes + c.faulty))
  {
    var wishes := WishesOf(c, s, nodes + c.faulty);
    forall q | q in wishes
      ensures GoodWish(c, s'.signed, q, wishes[q])
    {
      assert q in Nodes(c.n);
      if q in nodes {
        assert SentViewChange(s'.signed, q, 1, s.replicas[q].prepared);
      }
    }
  }

  ghost predicate ForwardsSome(wishes: map<Node, Wish>, nodes: set<Node>, vcs: seq<Complaint>) {
    && nodes <= wishes.Keys
    && (forall q :: q in nodes ==> Complaint(q, 1, wishes[q].claim, wishes[q].sig) in vcs)
    && (forall i :: 0 <= i < |vcs| ==>
         var q := vcs[i].from; q in nodes && vcs[i] == Complaint(q, 1, wishes[q].claim, wishes[q].sig))
  }

  lemma Forwarding(wishes: map<Node, Wish>, nodes: set<Node>) returns (vcs: seq<Complaint>)
    requires nodes <= wishes.Keys
    ensures ForwardsSome(wishes, nodes, vcs)
    decreases |nodes|
  {
    if nodes == {} {
      vcs := [];
    } else {
      var q :| q in nodes;
      var rest := Forwarding(wishes, nodes - {q});
      var x := Complaint(q, 1, wishes[q].claim, wishes[q].sig);
      vcs := rest + [x];
      assert vcs[|rest|] == x;
      forall p | p in nodes
        ensures Complaint(p, 1, wishes[p].claim, wishes[p].sig) in vcs
      {
        assert p != q ==> Complaint(p, 1, wishes[p].claim, wishes[p].sig) in rest;
      }
    }
  }

  ghost predicate AllTowardOne(wishes: map<Node, Wish>) {
    forall q :: q in wishes ==> wishes[q].newview == 1
  }

  lemma ForwardAll(wishes: map<Node, Wish>) returns (vcs: seq<Complaint>)
    requires AllTowardOne(wishes)
    ensures Forwards(wishes, 1, vcs) && Wishers(wishes, 1) == wishes.Keys
  {
    vcs := Forwarding(wishes, wishes.Keys);
    assert Wishers(wishes, 1) == wishes.Keys;
  }

  /** In view 0, having complained toward view 1, and having recorded these members' complaints. */
  ghost predicate Gathering(r: ReplicaState, wishes: map<Node, Wish>, done: set<Node>) {
    && r.view == 0 && r.highestVcSent == 1
    && r.viewchanges.Keys == done <= wishes.Keys && forall q :: q in done ==> r.viewchanges[q] == wishes[q]
  }

  /** One more complaint is recorded and nothing sent. */
  lemma GatherOne(c: Config, r: ReplicaState, leader: Node, q: Node, wishes: map<Node, Wish>, done: set<Node>)
    returns (r': ReplicaState)
    requires c.n >= 1 && q !in done && q in wishes && AllTowardOne(wishes) && Gathering(r, wishes, done)
    requires |done + {q}| <= 2 * c.F()
    ensures OnViewChange(c, leader, r, q, wishes[q], r', []) && Gathering(r', wishes, done + {q})
    ensures r' == r.(viewchanges := r'.viewchanges)
  {
    var recorded := r.viewchanges[q := wishes[q]];
    assert RecordWish(r.viewchanges, q, wishes[q]) == recorded;
    assert Wishers(recorded, 1) == done + {q};
    r' := r.(viewchanges := recorded);
  }

  /** The last complaint brings the NEWVIEW. */
  lemma GatherLast(c: Config, r: ReplicaState, leader: Node, q: Node, wishes: map<Node, Wish>, best: Option<Cert>)
    returns (r': ReplicaState, vcs: seq<Complaint>)
    requires c.n >= 1 && c.LeaderOf(1) == leader && q in wishes && AllTowardOne(wishes)
    requires Gathering(r, wishes, wishes.Keys - {q}) && |wishes.Keys| > 2 * c.F() && Selects(c, wishes, 1, best)
    ensures OnViewChange(c, leader, r, q, wishes[q], r', [Seal(NewView(leader, 1, vcs, ValueOf(best), Garbage))])
    ensures Forwards(wishes, 1, vcs) && r' == r.(viewchanges := wishes)
  {
    var recorded := r.viewchanges[q := wishes[q]];
    assert RecordWish(r.viewchanges, q, wishes[q]) == recorded;
    assert recorded == wishes;
    vcs := ForwardAll(wishes);
    r' := r.(viewchanges := wishes);
    LeadsOnLast(c, r, leader, q, wishes, best, vcs);
  }

  lemma LeadsOnLast(c: Config, r: ReplicaState, leader: Node, q: Node, wishes: map<Node, Wish>, best: Option<Cert>,
                    vcs: seq<Complaint>)
    requires c.n >= 1 && c.LeaderOf(1) == leader && q in wishes && wishes[q].newview == 1
    requires RecordWish(r.viewchanges, q, wishes[q]) == wishes && r.view == 0 && r.highestVcSent == 1
    requires |Wishers(wishes, 1)| > 2 * c.F() && Selects(c, wishes, 1, best) && Forwards(wishes, 1, vcs)
    ensures OnViewChange(c, leader, r, q, wishes[q], r.(viewchanges := wishes),
                         [Seal(NewView(leader, 1, vcs, ValueOf(best), Garbage))])
  {
    var sent := [Seal(NewView(leader, 1, vcs, ValueOf(best), Garbage))];
    assert [] + sent == sent;
  }

  /** The leader of view 1 has sent a NEWVIEW that forwards these complaints and proposes what they select. */
  ghost predicate Announced(c: Config, signed: set<Signature>, leader: Node, wishes: map<Node, Wish>,
                            vcs: seq<Complaint>, best: Option<Cert>)
    requires c.n >= 1
  {
    && c.LeaderOf(1) == leader && SentNewView(signed, leader, 1, vcs, ValueOf(best))
    && Pleas(c, signed, wishes) && |wishes.Keys| > 2 * c.F() && Forwards(wishes, 1, vcs) && Selects(c, wishes, 1, best)
  }

  ghost predicate SameButWishes(c: Config, leader: Node, s: System, s': System)
    requires |s.replicas| == c.n && |s'.replicas| == c.n && leader < c.n
  {
    s'.replicas[leader] == s.replicas[leader].(viewchanges := s'.replicas[leader].viewchanges)
  }

  lemma UnforgedPlea(c: Config, signed: set<Signature>, wishes: map<Node, Wish>, q: Node)
    requires Pleas(c, signed, wishes) && q in wishes
    ensures var msg := ViewChange(q, 1, wishes[q].claim, wishes[q].sig);
            Unforged(c, signed, msg) && VerifyEnvelope(c, msg) && wishes[q] == Wish(1, wishes[q].claim, wishes[q].sig)
  {
  }

  lemma PleasGrow(c: Config, signed: set<Signature>, signed': set<Signature>, wishes: map<Node, Wish>)
    requires signed <= signed' && Pleas(c, signed, wishes)
    ensures Pleas(c, signed', wishes)
  {
    forall q | q in wishes
      ensures GoodWish(c, signed', q, wishes[q])
    {
      assert GoodWish(c, signed, q, wishes[q]);
    }
  }

  lemma LeadOne(c: Config, s0: System, s: System, leader: Node, q: Node, wishes: map<Node, Wish>, done: set<Node>)
    returns (s': System)
    requires Reach(c, s0, s) && |s.replicas| == c.n && c.Correct(leader) && Pleas(c, s.signed, wishes)
    requires q in wishes && q !in done && |done + {q}| <= 2 * c.F() && Gathering(s.replicas[leader], wishes, done)
    ensures Reach(c, s0, s') && Within(c, {leader}, s, s') && SameButWishes(c, leader, s, s')
    ensures Gathering(s'.replicas[leader], wishes, done + {q}) && Pleas(c, s'.signed, wishes)
  {
    var r := GatherOne(c, s.replicas[leader], leader, q, wishes, done);
    UnforgedPlea(c, s.signed, wishes, q);
    s' := After(s, leader, r, []);
    assert s'.signed == s.signed;
    ReachDeliver(c, s0, s, leader, ViewChange(q, 1, wishes[q].claim, wishes[q].sig), r, []);
  }

  lemma LeadLast(c: Config, s0: System, s: System, leader: Node, q: Node, wishes: map<Node, Wish>, best: Option<Cert>)
    returns (s': System, vcs: seq<Complaint>)
    requires Reach(c, s0, s) && |s.replicas| == c.n && c.Correct(leader) && c.LeaderOf(1) == leader
    requires Pleas(c, s.signed, wishes) && q in wishes && |wishes.Keys| > 2 * c.F() && Selects(c, wishes, 1, best)
    requires Gathering(s.replicas[leader], wishes, wishes.Keys - {q})
    ensures Reach(c, s0, s') && Within(c, {leader}, s, s') && SameButWishes(c, leader, s, s')
    ensures Announced(c, s'.signed, leader, wishes, vcs, best)
  {
    var r, list := GatherLast(c, s.replicas[leader], leader, q, wishes, best);
    vcs := list;
    UnforgedPlea(c, s.signed, wishes, q);
    var msg := NewView(leader, 1, vcs, ValueOf(best), Garbage);
    s' := After(s, leader, r, [Seal(msg)]);
    ReachDeliver(c, s0, s, leader, ViewChange(q, 1, wishes[q].claim, wishes[q].sig), r, [Seal(msg)]);
    SealedOut(c, s, leader, r, msg);
    PleasGrow(c, s.signed, s'.signed, wishes);
  }

  /** The leader of view 1 gathers all these complaints and announces the view. */
  lemma LeadRest(c: Config, s0: System, s: System, leader: Node, wishes: map<Node, Wish>, best: Option<Cert>,
                 done: set<Node>)
    returns (s': System, vcs: seq<Complaint>)
    requires Reach(c, s0, s) && |s.replicas| == c.n && c.Correct(leader) && c.LeaderOf(1) == leader
    requires Pleas(c, s.signed, wishes) && |wishes.Keys| == 2 * c.F() + 1 && Selects(c, wishes, 1, best)
    requires done < wishes.Keys && Gathering(s.replicas[leader], wishes, done)
    ensures Reach(c, s0, s') && Within(c, {leader}, s, s') && SameButWishes(c, leader, s, s')
    ensures Announced(c, s'.signed, leader, wishes, vcs, best)
    decreases |wishes.Keys - done|
  {
    var q :| q in wishes && q !in done;
    if done + {q} == wishes.Keys {
      assert done == wishes.Keys - {q};
      s', vcs := LeadLast(c, s0, s, leader, q, wishes, best);
    } else {
      FewerThan(done + {q}, wishes.Keys);
      var next := LeadOne(c, s0, s, leader, q, wishes, done);
      LessToDo(wishes.Keys, done, q);
      s', vcs := LeadRest(c, s0, next, leader, wishes, best, done + {q});
      LedTwice(c, leader, s, next, s');
    }
  }

  lemma LedTwice(c: Config, leader: Node, s: System, next: System, s': System)
    requires Within(c, {leader}, s, next) && Within(c, {leader}, next, s') && leader < c.n
    requires SameButWishes(c, leader, s, next) && SameButWishes(c, leader, next, s')
    ensures Within(c, {leader}, s, s') && SameButWishes(c, leader, s, s')
  {
  }

  lemma FewerThan(some: set<Node>, all: set<Node>)
    requires some < all
    ensures |some| < |all|
  {
    var x :| x in all && x !in some;
    SubsetSize(some + {x}, all);
  }

  lemma LessToDo(all: set<Node>, done: set<Node>, q: Node)
    requires q in all && q !in done
    ensures |all - (done + {q})| < |all - done|
  {
    assert all - (done + {q}) == (all - done) - {q};
  }

  /** These members have complained, among them the leader, and lost nothing else by it. */
  ghost predicate AllGathered(c: Config, s: System, s': System, nodes: set<Node>)
    requires |s.replicas| == c.n && |s'.replicas| == c.n
  {
    forall p :: p in nodes ==>
      && p < c.n && s'.replicas[p].view == 0 && s'.replicas[p].highestVcSent == 1
      && s'.replicas[p].decided == s.replicas[p].decided
  }

  lemma GatheredTwice(c: Config, s: System, s1: System, s2: System, leader: Node, nodes: set<Node>)
    requires Within(c, nodes, s, s1) && AllComplained(c, s, s1, nodes) && leader in nodes && leader < c.n
    requires Within(c, {leader}, s1, s2) && SameButWishes(c, leader, s1, s2)
    ensures Within(c, nodes, s, s2) && AllGathered(c, s, s2, nodes)
  {
  }

  /** These members complain with what they hold, and the leader of view 1, one of them, announces it. */
  lemma ComplainAndLead(c: Config, s0: System, s: System, leader: Node, nodes: set<Node>, best: Option<Cert>)
    returns (s': System, vcs: seq<Complaint>)
    requires Reach(c, s0, s) && |s.replicas| == c.n && AllUndecided(c, s, nodes) && ClaimsKnown(c, s, nodes)
    requires leader in nodes && c.LeaderOf(1) == leader && s.replicas[leader].viewchanges == map[]
    requires nodes !! c.faulty && nodes + c.faulty <= Nodes(c.n) && |nodes + c.faulty| == 2 * c.F() + 1
    requires Selects(c, WishesOf(c, s, nodes + c.faulty), 1, best)
    ensures Reach(c, s0, s') && Within(c, nodes, s, s') && AllGathered(c, s, s', nodes)
    ensures Announced(c, s'.signed, leader, WishesOf(c, s, nodes + c.faulty), vcs, best)
  {
    var wishes := WishesOf(c, s, nodes + c.faulty);
    var s1 := ComplainAll(c, s0, s, nodes);
    WishesArePleas(c, s, s1, nodes);
    assert wishes.Keys == nodes + c.faulty;
    assert Gathering(s1.replicas[leader], wishes, {});
    s', vcs := LeadRest(c, s0, s1, leader, wishes, best, {});
    GatheredTwice(c, s, s1, s', leader, nodes);
  }

  // ------------------------------------------------------------------- entering

  lemma PleasAccepted(c: Config, signed: set<Signature>, wishes: map<Node, Wish>, vcs: seq<Complaint>)
    requires Pleas(c, signed, wishes) && Forwards(wishes, 1, vcs)
    ensures ValidRecords(c, 1, vcs) == wishes
    ensures forall i :: 0 <= i < |vcs| ==> Known(c, signed, vcs[i].sig) && ClaimKnown(c, signed, vcs[i].claim)
  {
    var valid := ValidRecords(c, 1, vcs);
    ForwardedRecordsAccepted(c, signed, 1, wishes, vcs);
    forall q | q in wishes
      ensures q in valid
    {
      assert Complaint(q, 1, wishes[q].claim, wishes[q].sig) in vcs;
    }
    assert valid.Keys == wishes.Keys;
  }

  function Announcement(leader: Node, vcs: seq<Complaint>, best: Option<Cert>): Message {
    Seal(NewView(leader, 1, vcs, ValueOf(best), Garbage))
  }

  /** Any replica still in view 0 enters on the announcement. */
  lemma EntersOn(c: Config, signed: set<Signature>, leader: Node, wishes: map<Node, Wish>, vcs: seq<Complaint>,
                 best: Option<Cert>, p: Node, r: ReplicaState)
    requires c.n >= 1 && Announced(c, signed, leader, wishes, vcs, best) && r.view == 0
    ensures var (r', out) := EnterView(p, r, 1, ValueOf(best));
            Handles(c, p, r, Announcement(leader, vcs, best), r', out) && r'.view == 1
    ensures Unforged(c, signed, Announcement(leader, vcs, best))
  {
    PleasAccepted(c, signed, wishes, vcs);
    assert leader < c.n;
  }

  lemma Stays(c: Config, s: System, s': System, leader: Node, wishes: map<Node, Wish>, vcs: seq<Complaint>,
              best: Option<Cert>)
    requires c.n >= 1 && s.signed <= s'.signed && Announced(c, s.signed, leader, wishes, vcs, best)
    ensures Announced(c, s'.signed, leader, wishes, vcs, best)
  {
    PleasGrow(c, s.signed, s'.signed, wishes);
  }

  ghost predicate AllReadyToEnter(c: Config, s: System, nodes: set<Node>)
    requires |s.replicas| == c.n
  {
    forall p :: p in nodes ==> c.Correct(p) && s.replicas[p].view == 0 && s.replicas[p].highestVcSent <= 1
  }

  lemma EnterOne(c: Config, s0: System, s: System, leader: Node, wishes: map<Node, Wish>, vcs: seq<Complaint>, p: Node)
    returns (s': System)
    requires Reach(c, s0, s) && |s.replicas| == c.n && Announced(c, s.signed, leader, wishes, vcs, None)
    requires AllReadyToEnter(c, s, {p})
    ensures Reach(c, s0, s') && Within(c, {p}, s, s') && AllWaiting(c, s', {p}, 1) && SameDecisions(c, s, s')
  {
    assert p in {p};
    EntersOn(c, s.signed, leader, wishes, vcs, None, p, s.replicas[p]);
    var (r, out) := EnterView(p, s.replicas[p], 1, None);
    s' := After(s, p, r, out);
    ReachDeliver(c, s0, s, p, Announcement(leader, vcs, None), r, out);
  }

  lemma EnterJoins(c: Config, s: System, next: System, s': System, p: Node, nodes: set<Node>)
    requires p in nodes && Within(c, {p}, s, next) && Within(c, nodes - {p}, next, s')
    requires AllWaiting(c, next, {p}, 1) && AllWaiting(c, s', nodes - {p}, 1)
    requires SameDecisions(c, s, next) && SameDecisions(c, next, s')
    ensures Within(c, nodes, s, s') && AllWaiting(c, s', nodes, 1) && SameDecisions(c, s, s')
  {
    assert p in {p};
  }

  lemma EnterFirst(c: Config, s0: System, s: System, leader: Node, wishes: map<Node, Wish>, vcs: seq<Complaint>,
                   nodes: set<Node>) returns (p: Node, next: System)
    requires Reach(c, s0, s) && |s.replicas| == c.n && Announced(c, s.signed, leader, wishes, vcs, None)
    requires AllReadyToEnter(c, s, nodes) && nodes != {}
    ensures p in nodes && Reach(c, s0, next) && Within(c, {p}, s, next) && SameDecisions(c, s, next)
    ensures AllWaiting(c, next, {p}, 1) && Announced(c, next.signed, leader, wishes, vcs, None)
    ensures AllReadyToEnter(c, next, nodes - {p})
  {
    p :| p in nodes;
    next := EnterOne(c, s0, s, leader, wishes, vcs, p);
    Stays(c, s, next, leader, wishes, vcs, None);
  }

  /** These members enter view 1, which starts without a proposal. */
  lemma EnterAll(c: Config, s0: System, s: System, leader: Node, wishes: map<Node, Wish>, vcs: seq<Complaint>,
                 nodes: set<Node>)
    returns (s': System)
    requires Reach(c, s0, s) && |s.replicas| == c.n && Announced(c, s.signed, leader, wishes, vcs, None)
    requires AllReadyToEnter(c, s, nodes)
    ensures Reach(c, s0, s') && Within(c, nodes, s, s') && AllWaiting(c, s', nodes, 1) && SameDecisions(c, s, s')
    decreases |nodes|
  {
    s' := s;
    if nodes != {} {
      var p, next := EnterFirst(c, s0, s, leader, wishes, vcs, nodes);
      s' := EnterAll(c, s0, next, leader, wishes, vcs, nodes - {p});
      EnterJoins(c, s, next, s', p, nodes);
    }
  }
}
