/** Every step of the cluster keeps the invariant, and no step of a reachable state panics. */
module RaftSafety {
  import opened Options
  import opened Quorums
  import opened RaftNode
  import opened RaftSystem

  lemma MajoritiesMeet(n: nat, a: set<Node>, b: set<Node>) returns (j: Node)
    requires a <= Nodes(n) && b <= Nodes(n) && |a| >= Majority(n) && |b| >= Majority(n)
    ensures j in a && j in b
  {
    Overlap(n, a, b);
    j := OutsideMember(a * b, {});
  }

  // --------------------------------------------------------------- monotonicity

  /**
    What every step leaves behind: terms, reigns, acknowledgments and votes only grow, and old terms get no new
    acknowledgments.
    */
  ghost predicate Later(n: nat, s: System, s': System) {
    && Shaped(n, s) && Shaped(n, s')
    && (forall i :: 0 <= i < n ==> s.nodes[i].term <= s'.nodes[i].term)
    && (forall t :: t in s.reigns ==>
         && t in s'.reigns && s'.reigns[t].leader == s.reigns[t].leader && s'.reigns[t].base == s.reigns[t].base
         && s.reigns[t].log <= s'.reigns[t].log)
    && s.acks <= s'.acks && s.votes <= s'.votes && s.points <= s'.points
    && (forall a :: a in s'.acks && a !in s.acks && a.from < n && a.term == a.round ==> s.nodes[a.from].term <= a.round)
  }

  lemma PossibleShrinks(n: nat, s: System, s': System, t: nat, k: nat)
    requires Later(n, s, s')
    ensures CommitPossible(n, s', t, k) ==> CommitPossible(n, s, t, k)
  {
    SubsetSize(PossibleAckers(n, s', t, k), PossibleAckers(n, s, t, k));
  }

  lemma BackedGrows(n: nat, s: System, s': System, log: seq<Entry>, log': seq<Entry>, commit: nat, t: nat, t': nat)
    requires Later(n, s, s') && CommitBacked(s, log, commit, t) && log <= log' && t <= t'
    ensures CommitBacked(s', log', commit, t')
  {
    if commit != 0 {
      var u: nat, k: nat :| (u, k) in s.points && u <= t && commit <= k && Holds(s, log, u, commit);
      HoldsGrows(n, s, s', log, log', u, commit);
    }
  }

  lemma HoldsGrows(n: nat, s: System, s': System, log: seq<Entry>, log': seq<Entry>, t: nat, k: nat)
    requires Later(n, s, s') && Holds(s, log, t, k) && log <= log'
    ensures Holds(s', log', t, k)
  {
    assert LogOf(s', t)[..k] == LogOf(s, t)[..k];
  }

  lemma VotersGrow(n: nat, s: System, s': System, t: nat, c: Node)
    requires s.votes <= s'.votes
    ensures |Voters(n, s, t, c)| <= |Voters(n, s', t, c)|
  {
    SubsetSize(Voters(n, s, t, c), Voters(n, s', t, c));
  }

  lemma AckersGrow(n: nat, s: System, s': System, t: nat, k: nat)
    requires s.acks <= s'.acks
    ensures |Ackers(n, s, t, k)| <= |Ackers(n, s', t, k)|
  {
    SubsetSize(Ackers(n, s, t, k), Ackers(n, s', t, k));
  }

  lemma MatchingGrows(n: nat, s: System, s': System, log: seq<Entry>)
    requires Later(n, s, s') && Matching(s, log)
    ensures Matching(s', log)
  {
    forall k: nat | k < |log|
      ensures MatchesAt(s', log, k)
    {
      assert MatchesAt(s, log, k);
      HoldsGrows(n, s, s', log, log, log[k].term, k + 1);
    }
  }

  lemma ReignKept(n: nat, s: System, s': System, t: nat)
    requires Later(n, s, s') && t in s.reigns && ReignInv(n, s, t)
    requires s'.reigns[t].log == s.reigns[t].log
    ensures ReignInv(n, s', t)
  {
    VotersGrow(n, s, s', t, s.reigns[t].leader);
    MatchingGrows(n, s, s', s.reigns[t].log);
  }

  lemma AppendsKept(n: nat, s: System, s': System)
    requires Later(n, s, s') && AppendInv(n, s) && s'.appends == s.appends
    ensures AppendInv(n, s')
  {
    forall k | 0 <= k < |s.appends|
      ensures CommitBacked(s', s.appends[k].log, s.appends[k].commit, s.appends[k].term)
      ensures s.appends[k].log <= LogOf(s', s.appends[k].term)
    {
      var a := s.appends[k];
      BackedGrows(n, s, s', a.log, a.log, a.commit, a.term, a.term);
    }
  }

  lemma PointsKept(n: nat, s: System, s': System)
    requires Later(n, s, s') && PointInv(n, s) && s'.points == s.points
    ensures PointInv(n, s')
  {
    forall t: nat, k: nat | (t, k) in s'.points
      ensures OwnEntry(s', t, k) && |Ackers(n, s', t, k)| >= Majority(n)
    {
      AckersGrow(n, s, s', t, k);
      assert OwnEntry(s, t, k);
    }
  }

  /** A node a step does not touch. */
  lemma NodeKept(n: nat, s: System, s': System, i: Node)
    requires Later(n, s, s') && i < n && RoleInv(s, i) && StoreInv(s, i)
    requires s'.nodes[i] == s.nodes[i] && s'.src[i] == s.src[i]
    requires s.nodes[i].term in s'.reigns && s'.reigns[s.nodes[i].term].leader == i ==>
               s.nodes[i].term in s.reigns && LogOf(s', s.nodes[i].term) == LogOf(s, s.nodes[i].term)
    ensures RoleInv(s', i) && StoreInv(s', i)
  {
    BackedGrows(n, s, s', s.nodes[i].log, s.nodes[i].log, s.nodes[i].commitIndex, s.src[i], s.src[i]);
  }

  // ------------------------------------------ steps that move no log and add no leader

  /** Logs, reigns, requests to append and acknowledgments stay as they are. */
  ghost predicate Quiet(n: nat, s: System, s': System) {
    && Later(n, s, s')
    && s'.reigns == s.reigns && s'.src == s.src && s'.acks == s.acks && s'.appends == s.appends
    && s'.cursors == s.cursors
    && (forall i :: 0 <= i < n ==> s'.nodes[i].log == s.nodes[i].log)
  }

  lemma QuietKeeps(n: nat, s: System, s': System)
    requires Inv(n, s) && Quiet(n, s, s')
    ensures forall t: nat :: t in s'.reigns ==> ReignInv(n, s', t)
    ensures AppendInv(n, s') && LinkInv(n, s') && AckInv(n, s') && Lock(n, s') && Retain(n, s')
  {
    forall t: nat | t in s'.reigns
      ensures ReignInv(n, s', t)
    {
      ReignKept(n, s, s', t);
    }
    AppendsKept(n, s, s');
    QuietLock(n, s, s');
    QuietRetain(n, s, s');
  }

  lemma QuietLock(n: nat, s: System, s': System)
    requires Later(n, s, s') && s'.reigns == s.reigns && Lock(n, s)
    ensures Lock(n, s')
  {
    forall t: nat, k: nat, u: nat | OwnEntry(s', t, k) && t < u && u in s'.reigns && CommitPossible(n, s', t, k)
      ensures k <= s'.reigns[u].base && Holds(s', LogOf(s', u), t, k)
    {
      PossibleShrinks(n, s, s', t, k);
      assert OwnEntry(s, t, k);
      assert Holds(s, LogOf(s, u), t, k);
    }
  }

  lemma QuietRetain(n: nat, s: System, s': System)
    requires Quiet(n, s, s') && Retain(n, s)
    ensures Retain(n, s')
  {
    forall j: Node, t: nat, k: nat | j < n && Acked(s', j, t, k) && OwnEntry(s', t, k) && CommitPossible(n, s', t, k)
      ensures Holds(s', s'.nodes[j].log, t, k)
    {
      PossibleShrinks(n, s, s', t, k);
      assert OwnEntry(s, t, k) && Acked(s, j, t, k);
      assert Holds(s, s.nodes[j].log, t, k);
    }
  }

  /** The votes: a candidate holds what its voters acknowledged, when neither votes nor candidates are new. */
  lemma QuietVotes(n: nat, s: System, s': System)
    requires Inv(n, s) && Quiet(n, s, s')
    requires forall c: Node :: c < n && s'.nodes[c].role == Candidate ==>
              s.nodes[c].role == Candidate && s'.nodes[c].term == s.nodes[c].term
    requires forall j: Node, t: nat, c: Node :: Granted(s', j, t, c) ==> Granted(s, j, t, c)
    ensures VoteRetain(n, s')
  {
    forall j: Node, c: Node, t: nat, k: nat |
      j < n && c < n && s'.nodes[c].role == Candidate && Granted(s', j, s'.nodes[c].term, c) && t < s'.nodes[c].term
      && Acked(s', j, t, k) && OwnEntry(s', t, k) && CommitPossible(n, s', t, k)
      ensures Holds(s', s'.nodes[c].log, t, k)
    {
      PossibleShrinks(n, s, s', t, k);
      assert Acked(s, j, t, k) && OwnEntry(s, t, k) && Granted(s, j, s.nodes[c].term, c);
      assert Holds(s, s.nodes[c].log, t, k);
    }
  }

  /** A quiet step of node i, given what it does to that node and to the votes. */
  lemma QuietStep(n: nat, s: System, s': System, i: Node)
    requires Inv(n, s) && Quiet(n, s, s') && i < n
    requires s'.nodes == s.nodes[i := s'.nodes[i]] && s'.tasks == s.tasks[i := s'.tasks[i]]
    requires RoleInv(s', i) && StoreInv(s', i) && TaskInv(s', i)
    requires VoteInv(n, s') && RequestInv(n, s') && VoteRetain(n, s') && PointInv(n, s')
    ensures Inv(n, s')
  {
    QuietKeeps(n, s, s');
    forall j: Node | j < n && j != i
      ensures RoleInv(s', j) && StoreInv(s', j) && TaskInv(s', j)
    {
      NodeKept(n, s, s', j);
    }
  }

  lemma StoreKept(n: nat, s: System, s': System, i: Node)
    requires Later(n, s, s') && i < n && StoreInv(s, i)
    requires s'.src[i] == s.src[i] && s'.nodes[i].log == s.nodes[i].log
    requires s'.nodes[i].commitIndex == s.nodes[i].commitIndex
    requires s'.nodes[i].applied == s.nodes[i].applied && s'.nodes[i].kv == s.nodes[i].kv
    ensures StoreInv(s', i)
  {
    BackedGrows(n, s, s', s.nodes[i].log, s.nodes[i].log, s.nodes[i].commitIndex, s.src[i], s.src[i]);
  }

  lemma CampaignBallots(n: nat, s: System, i: Node)
    requires Inv(n, s) && i < n
    ensures VoteInv(n, CampaignStep(s, i)) && RequestInv(n, CampaignStep(s, i))
  {
    var s' := CampaignStep(s, i);
    var term := s.nodes[i].term + 1;
    forall j: Node, t: nat, c: Node | Granted(s', j, t, c)
      ensures Granted(s, j, t, c) || (j == c == i && t == term)
    {
    }
  }

  lemma CampaignRole(n: nat, s: System, i: Node)
    requires Inv(n, s) && i < n && s.nodes[i].role != Leader
    ensures RoleInv(CampaignStep(s, i), i)
  {
    var s' := CampaignStep(s, i);
    var term := s.nodes[i].term + 1;
    assert RoleInv(s, i);
    if term in s.reigns {
      assert ReignInv(n, s, term);
    }
    assert s'.nodes[i].term == term && s'.reigns == s.reigns && s'.src == s.src && s'.nodes[i].log == s.nodes[i].log;
    assert Granted(s', i, term, i);
  }

  lemma CampaignKeeps(n: nat, s: System, i: Node)
    requires Inv(n, s) && i < n && s.nodes[i].role != Leader
    ensures Inv(n, CampaignStep(s, i))
  {
    var s' := CampaignStep(s, i);
    StoreKept(n, s, s', i);
    CampaignRole(n, s, i);
    CampaignBallots(n, s, i);
    PointsKept(n, s, s');
    CampaignVotes(n, s, i);
    QuietStep(n, s, s', i);
  }

  lemma CampaignVotes(n: nat, s: System, i: Node)
    requires Shaped(n, s) && VoteInv(n, s) && Retain(n, s) && VoteRetain(n, s)
    requires i < n && Quiet(n, s, CampaignStep(s, i))
    ensures VoteRetain(n, CampaignStep(s, i))
  {
    var s' := CampaignStep(s, i);
    forall j: Node, c: Node, t: nat, k: nat |
      j < n && c < n && s'.nodes[c].role == Candidate && Granted(s', j, s'.nodes[c].term, c) && t < s'.nodes[c].term
      && Acked(s', j, t, k) && OwnEntry(s', t, k) && CommitPossible(n, s', t, k)
      ensures Holds(s', s'.nodes[c].log, t, k)
    {
      PossibleShrinks(n, s, s', t, k);
      assert Acked(s, j, t, k) && OwnEntry(s, t, k);
      if c == i {
        assert !Granted(s, j, s'.nodes[i].term, i);
        assert j == i;
        assert Holds(s, s.nodes[i].log, t, k);
      } else {
        assert Granted(s, j, s.nodes[c].term, c);
        assert Holds(s, s.nodes[c].log, t, k);
      }
    }
  }

  // ------------------------------------------------------------------- voting

  /** A log that ends in term u is a prefix of the log of u's leader. */
  lemma LastTermLog(n: nat, s: System, i: Node)
    requires Inv(n, s) && i < n && s.nodes[i].log != []
    ensures var log, u := s.nodes[i].log, LastTerm(s.nodes[i].log);
            u in s.reigns && u > 0 && log <= LogOf(s, u)
  {
    var log := s.nodes[i].log;
    assert RoleInv(s, i);
    assert ReignInv(n, s, s.src[i]);
    var whole := LogOf(s, s.src[i]);
    assert whole[|log| - 1].term == LastTerm(log);
    assert MatchesAt(s, whole, |log| - 1);
    assert log == whole[..|log|];
    assert ReignInv(n, s, LastTerm(log));
  }

  /** A log ending in a later term u reaches past every entry of an earlier term in the log of u's leader. */
  lemma ReachesPast(n: nat, s: System, log: seq<Entry>, u: nat, t: nat, k: nat)
    requires Shaped(n, s) && u in s.reigns && ReignInv(n, s, u)
    requires log != [] && log <= LogOf(s, u) && LastTerm(log) == u && t < u
    requires OwnEntry(s, t, k) && Holds(s, LogOf(s, u), t, k)
    ensures Holds(s, log, t, k)
  {
    assert LogOf(s, u)[k - 1].term == t;
    assert LogOf(s, u)[|log| - 1].term == u;
    assert k <= |log|;
  }

  lemma PrefixesNest(a: seq<Entry>, b: seq<Entry>, whole: seq<Entry>)
    requires a <= whole && b <= whole && |a| <= |b|
    ensures a <= b
  {
  }

  /**
    The election restriction at work: a voter that grants its vote acknowledged nothing,
    committed or committable, that the candidate does not hold. With equal last terms both
    logs are prefixes of one leader's log; with a later last term that term's leader was
    elected with the entry, and the candidate's log reaches past it.
    */
  lemma UpToDate(n: nat, s: System, i: Node, c: Node, t: nat, k: nat)
    requires Inv(n, s) && i < n && c < n
    requires Acked(s, i, t, k) && OwnEntry(s, t, k) && CommitPossible(n, s, t, k)
    requires LogOk(s.nodes[i], |s.nodes[c].log|, LastTerm(s.nodes[c].log))
    ensures Holds(s, s.nodes[c].log, t, k)
  {
    var mine, theirs := s.nodes[i].log, s.nodes[c].log;
    assert Holds(s, mine, t, k);
    assert mine[k - 1].term == t;
    LastTermLog(n, s, i);
    assert RoleInv(s, i);
    VoterLastTerm(mine, LogOf(s, s.src[i]), k);
    LastTermLog(n, s, c);
    var u := LastTerm(theirs);
    if u == LastTerm(mine) {
      PrefixesNest(mine, theirs, LogOf(s, u));
    } else {
      assert Holds(s, LogOf(s, u), t, k);
      ReachesPast(n, s, theirs, u, t, k);
    }
  }

  lemma VoterLastTerm(log: seq<Entry>, whole: seq<Entry>, k: nat)
    requires 0 < k <= |log| && log <= whole && forall i, j :: 0 <= i < j < |whole| ==> whole[i].term <= whole[j].term
    ensures log[k - 1].term <= LastTerm(log)
  {
    assert log[k - 1] == whole[k - 1] && log[|log| - 1] == whole[|log| - 1];
  }

  lemma VoteOnVotes(n: nat, s: System, i: Node, req: VoteRequest)
    requires Inv(n, s) && i < n && req in s.requests && req.cand != i && Quiet(n, s, VoteOnStep(s, i, req))
    ensures VoteRetain(n, VoteOnStep(s, i, req))
  {
    var s' := VoteOnStep(s, i, req);
    forall j: Node, c: Node, t: nat, k: nat |
      j < n && c < n && s'.nodes[c].role == Candidate && Granted(s', j, s'.nodes[c].term, c) && t < s'.nodes[c].term
      && Acked(s', j, t, k) && OwnEntry(s', t, k) && CommitPossible(n, s', t, k)
      ensures Holds(s', s'.nodes[c].log, t, k)
    {
      PossibleShrinks(n, s, s', t, k);
      assert Acked(s, j, t, k) && OwnEntry(s, t, k);
      VotedOn(n, s, i, req, j, c, t, k);
    }
  }

  lemma VotedOn(n: nat, s: System, i: Node, req: VoteRequest, j: Node, c: Node, t: nat, k: nat)
    requires Inv(n, s) && i < n && req in s.requests && req.cand != i && j < n && c < n
    requires var s' := VoteOnStep(s, i, req);
             s'.nodes[c].role == Candidate && Granted(s', j, s'.nodes[c].term, c) && t < s'.nodes[c].term
    requires Acked(s, j, t, k) && OwnEntry(s, t, k) && CommitPossible(n, s, t, k)
    ensures Holds(s, s.nodes[c].log, t, k)
  {
    assert s.nodes[c].role == Candidate && s.nodes[c].term == VoteOnStep(s, i, req).nodes[c].term;
    if !Granted(s, j, s.nodes[c].term, c) {
      assert j == i && c == req.cand && req.term == s.nodes[c].term;
      UpToDate(n, s, i, c, t, k);
    }
  }

  lemma VoteOnBallots(n: nat, s: System, i: Node, req: VoteRequest)
    requires Inv(n, s) && i < n && req in s.requests && req.cand != i
    ensures VoteInv(n, VoteOnStep(s, i, req)) && RequestInv(n, VoteOnStep(s, i, req))
  {
    var s' := VoteOnStep(s, i, req);
    forall j: Node, t: nat, c: Node | Granted(s', j, t, c)
      ensures Granted(s, j, t, c) || (j == i && c == req.cand && t == req.term && s'.nodes[i].term == t
                                      && s'.nodes[i].votedFor == Some(c)
                                      && (s.nodes[i].term == t ==> s.nodes[i].votedFor in {None, Some(c)}))
    {
    }
  }

  lemma VoteOnKeeps(n: nat, s: System, i: Node, req: VoteRequest)
    requires Inv(n, s) && i < n && req in s.requests && req.cand != i
    ensures Inv(n, VoteOnStep(s, i, req))
  {
    var s' := VoteOnStep(s, i, req);
    StoreKept(n, s, s', i);
    assert RoleInv(s, i) && TaskInv(s, i);
    assert RoleInv(s', i);
    VoteOnBallots(n, s, i, req);
    PointsKept(n, s, s');
    VoteOnVotes(n, s, i, req);
    QuietStep(n, s, s', i);
  }

  // ------------------------------------------------ stepping down, get, restart

  /** What a node may do silently: move to a later term as a follower, or apply more of what it has committed. */
  ghost predicate SilentChange(a: NodeState, b: NodeState) {
    && b.log == a.log && b.commitIndex == a.commitIndex && b.applied <= b.commitIndex <= |b.log|
    && b.kv == Replay(b.log[..b.applied]) && b.disk == DurablePart(b)
    && ((b.term == a.term && b.votedFor == a.votedFor && (b.role == a.role || b.role == Follower))
        || (b.term > a.term && b.role == Follower))
  }

  ghost predicate SilentStep(n: nat, s: System, s': System, i: Node) {
    && Shaped(n, s) && Shaped(n, s') && i < n
    && s' == s.(nodes := s.nodes[i := s'.nodes[i]], tasks := s.tasks[i := s'.tasks[i]])
    && (s'.tasks[i] == Idle || s'.tasks[i] == s.tasks[i])
    && SilentChange(s.nodes[i], s'.nodes[i])
  }

  lemma SilentBallots(n: nat, s: System, s': System, i: Node)
    requires Inv(n, s) && SilentStep(n, s, s', i)
    ensures VoteInv(n, s') && RequestInv(n, s')
  {
    forall j: Node, t: nat, c: Node | Granted(s', j, t, c)
      ensures Granted(s, j, t, c)
    {
    }
  }

  lemma SilentNode(n: nat, s: System, s': System, i: Node)
    requires SilentStep(n, s, s', i) && RoleInv(s, i) && StoreInv(s, i) && TaskInv(s, i)
    ensures RoleInv(s', i) && StoreInv(s', i) && TaskInv(s', i)
  {
    BackedGrows(n, s, s', s.nodes[i].log, s.nodes[i].log, s.nodes[i].commitIndex, s.src[i], s.src[i]);
  }

  lemma SilentKeeps(n: nat, s: System, s': System, i: Node)
    requires Inv(n, s) && SilentStep(n, s, s', i)
    ensures Inv(n, s')
  {
    SilentNode(n, s, s', i);
    SilentBallots(n, s, s', i);
    PointsKept(n, s, s');
    QuietVotes(n, s, s');
    QuietStep(n, s, s', i);
  }

  // -------------------------------------------------------------------- winning

  ghost predicate Wins(n: nat, s: System, i: Node, replies: map<Node, (nat, bool)>)
    requires Shaped(n, s)
  {
    && i < n && s.tasks[i].Electing? && VoteRepliesSent(s, i, replies)
    && s.nodes[i].role == Candidate && s.nodes[i].term == s.tasks[i].term
    && 1 + |Supporters(s.tasks[i].term, replies)| >= Majority(n)
  }

  function WonStep(s: System, i: Node): System
    requires i < |s.nodes| == |s.tasks| == |s.src|
  {
    EndCampaignStep(s, i, s.nodes[i].(role := Leader))
  }

  /** No two candidates have a majority of votes in one term. */
  lemma OneWinner(n: nat, s: System, t: nat, c: Node, d: Node)
    requires Shaped(n, s) && VoteInv(n, s)
    requires |Voters(n, s, t, c)| >= Majority(n) && |Voters(n, s, t, d)| >= Majority(n)
    ensures c == d
  {
    var j := MajoritiesMeet(n, Voters(n, s, t, c), Voters(n, s, t, d));
    assert Granted(s, j, t, c) && Granted(s, j, t, d);
  }

  /** The winner has a majority of recorded votes, so the term has no leader yet. */
  lemma WinnerIsFirst(n: nat, s: System, i: Node, replies: map<Node, (nat, bool)>)
    requires Inv(n, s) && Wins(n, s, i, replies)
    ensures |Voters(n, s, s.nodes[i].term, i)| >= Majority(n)
    ensures s.nodes[i].term !in s.reigns
  {
    var t := s.nodes[i].term;
    var a := Supporters(t, replies) + {i};
    assert RoleInv(s, i);
    forall j | j in a
      ensures j in Voters(n, s, t, i)
    {
      assert Granted(s, j, t, i);
    }
    SubsetSize(a, Voters(n, s, t, i));
    if t in s.reigns {
      assert ReignInv(n, s, t);
      OneWinner(n, s, t, i, s.reigns[t].leader);
      assert false;
    }
  }

  /** The winner holds whatever an earlier leader committed, or can still commit. */
  lemma WinnerHolds(n: nat, s: System, i: Node, t: nat, k: nat)
    requires Inv(n, s) && i < n && s.nodes[i].role == Candidate
    requires |Voters(n, s, s.nodes[i].term, i)| >= Majority(n)
    requires t < s.nodes[i].term && OwnEntry(s, t, k) && CommitPossible(n, s, t, k)
    ensures Holds(s, s.nodes[i].log, t, k)
  {
    var j := MajoritiesMeet(n, Voters(n, s, s.nodes[i].term, i), PossibleAckers(n, s, t, k));
    assert Granted(s, j, s.nodes[i].term, i);
    assert Acked(s, j, t, k);
  }

  /**
    What every node's log looks like: entries of terms before its own reign, in order, matching their leaders' logs.
    */
  lemma LogShape(n: nat, s: System, i: Node)
    requires Inv(n, s) && i < n
    ensures forall k :: 0 <= k < |s.nodes[i].log| ==> s.nodes[i].log[k].term <= s.src[i] && s.src[i] in s.reigns
    ensures forall j, k :: 0 <= j < k < |s.nodes[i].log| ==> s.nodes[i].log[j].term <= s.nodes[i].log[k].term
    ensures Matching(s, s.nodes[i].log)
  {
    assert RoleInv(s, i);
    var log, whole := s.nodes[i].log, LogOf(s, s.src[i]);
    if log != [] {
      assert ReignInv(n, s, s.src[i]);
      forall k: nat | k < |log|
        ensures MatchesAt(s, log, k) && log[k].term <= s.src[i]
      {
        assert log[k] == whole[k];
        assert MatchesAt(s, whole, k);
        PrefixesNest(LogOf(s, log[k].term)[..k + 1], log, whole);
      }
    }
  }

  /** Node i's victory, seen from the history: one new reign, whose log is the winner's. */
  ghost predicate Crowned(n: nat, s: System, s': System, i: Node) {
    && Later(n, s, s') && i < n && s'.acks == s.acks && s'.votes == s.votes
    && s.nodes[i].term !in s.reigns
    && s'.reigns == s.reigns[s.nodes[i].term := Reign(i, |s.nodes[i].log|, s.nodes[i].log)]
    && (forall j :: 0 <= j < n ==> s'.nodes[j].log == s.nodes[j].log && s'.nodes[j].term == s.nodes[j].term)
    && (forall j :: 0 <= j < n ==> s'.nodes[j].role == s.nodes[j].role || (j == i && s'.nodes[j].role == Leader))
    && (forall k :: 0 <= k < |s.nodes[i].log| ==> s.nodes[i].log[k].term < s.nodes[i].term)
  }

  lemma WinnerIsCrowned(n: nat, s: System, i: Node, replies: map<Node, (nat, bool)>)
    requires Inv(n, s) && Wins(n, s, i, replies)
    ensures Crowned(n, s, WonStep(s, i), i)
  {
    WinnerIsFirst(n, s, i, replies);
    LogShape(n, s, i);
    assert RoleInv(s, i);
  }

  lemma CrownedEntries(n: nat, s: System, s': System, i: Node, t: nat, k: nat)
    requires Crowned(n, s, s', i)
    ensures OwnEntry(s', t, k) ==> OwnEntry(s, t, k) && t != s.nodes[i].term
  {
  }

  lemma CrownedMatching(n: nat, s: System, s': System, i: Node)
    requires Crowned(n, s, s', i) && Matching(s, s.nodes[i].log)
    ensures Matching(s', s.nodes[i].log)
  {
    MatchingGrows(n, s, s', s.nodes[i].log);
  }

  lemma WonReigns(n: nat, s: System, i: Node, replies: map<Node, (nat, bool)>, u: nat)
    requires Inv(n, s) && Wins(n, s, i, replies) && Crowned(n, s, WonStep(s, i), i)
    requires u in WonStep(s, i).reigns
    ensures ReignInv(n, WonStep(s, i), u)
  {
    if u == s.nodes[i].term {
      LogShape(n, s, i);
      CrownedMatching(n, s, WonStep(s, i), i);
      WinnerIsFirst(n, s, i, replies);
      WonOwnReign(n, s, i);
    } else {
      ReignKept(n, s, WonStep(s, i), u);
    }
  }

  lemma WonOwnReign(n: nat, s: System, i: Node)
    requires Inv(n, s) && i < n && s.nodes[i].role == Candidate && s.nodes[i].term !in s.reigns
    requires |Voters(n, s, s.nodes[i].term, i)| >= Majority(n) && Matching(WonStep(s, i), s.nodes[i].log)
    requires forall k :: 0 <= k < |s.nodes[i].log| ==> s.nodes[i].log[k].term < s.nodes[i].term
    ensures ReignInv(n, WonStep(s, i), s.nodes[i].term)
  {
    LogShape(n, s, i);
    VotersGrow(n, s, WonStep(s, i), s.nodes[i].term, i);
    assert RoleInv(s, i);
    assert Granted(s, i, s.nodes[i].term, i);
  }

  lemma CrownedLock(n: nat, s: System, s': System, i: Node)
    requires Crowned(n, s, s', i) && Lock(n, s)
    requires forall t: nat, k: nat :: t < s.nodes[i].term && OwnEntry(s, t, k) && CommitPossible(n, s, t, k) ==>
               Holds(s, s.nodes[i].log, t, k)
    ensures Lock(n, s')
  {
    forall t: nat, k: nat, u: nat | OwnEntry(s', t, k) && t < u && u in s'.reigns && CommitPossible(n, s', t, k)
      ensures k <= s'.reigns[u].base && Holds(s', LogOf(s', u), t, k)
    {
      PossibleShrinks(n, s, s', t, k);
      CrownedEntries(n, s, s', i, t, k);
      CrownedHolds(n, s, s', i, t, k, u);
    }
  }

  lemma CrownedHolds(n: nat, s: System, s': System, i: Node, t: nat, k: nat, u: nat)
    requires Crowned(n, s, s', i) && Lock(n, s) && t < u && u in s'.reigns
    requires OwnEntry(s, t, k) && CommitPossible(n, s, t, k)
    requires t < s.nodes[i].term ==> Holds(s, s.nodes[i].log, t, k)
    ensures k <= s'.reigns[u].base && Holds(s', LogOf(s', u), t, k)
  {
    var log := if u == s.nodes[i].term then s.nodes[i].log else LogOf(s, u);
    assert Holds(s, log, t, k);
    HoldsGrows(n, s, s', log, LogOf(s', u), t, k);
  }

  lemma CrownedRetain(n: nat, s: System, s': System, i: Node)
    requires Crowned(n, s, s', i) && Retain(n, s)
    ensures Retain(n, s')
  {
    forall j: Node, t: nat, k: nat | j < n && Acked(s', j, t, k) && OwnEntry(s', t, k) && CommitPossible(n, s', t, k)
      ensures Holds(s', s'.nodes[j].log, t, k)
    {
      PossibleShrinks(n, s, s', t, k);
      CrownedEntries(n, s, s', i, t, k);
      assert Acked(s, j, t, k);
      HoldsGrows(n, s, s', s.nodes[j].log, s'.nodes[j].log, t, k);
    }
  }

  lemma CrownedVotes(n: nat, s: System, s': System, i: Node)
    requires Crowned(n, s, s', i) && VoteRetain(n, s)
    ensures VoteRetain(n, s')
  {
    forall j: Node, c: Node, t: nat, k: nat |
      j < n && c < n && s'.nodes[c].role == Candidate && Granted(s', j, s'.nodes[c].term, c) && t < s'.nodes[c].term
      && Acked(s', j, t, k) && OwnEntry(s', t, k) && CommitPossible(n, s', t, k)
      ensures Holds(s', s'.nodes[c].log, t, k)
    {
      PossibleShrinks(n, s, s', t, k);
      CrownedEntries(n, s, s', i, t, k);
      assert Acked(s, j, t, k) && Granted(s, j, s.nodes[c].term, c);
      HoldsGrows(n, s, s', s.nodes[c].log, s'.nodes[c].log, t, k);
    }
  }

  lemma WonLocks(n: nat, s: System, i: Node, replies: map<Node, (nat, bool)>)
    requires Inv(n, s) && Wins(n, s, i, replies) && Crowned(n, s, WonStep(s, i), i)
    ensures Lock(n, WonStep(s, i)) && Retain(n, WonStep(s, i)) && VoteRetain(n, WonStep(s, i))
  {
    WinnerIsFirst(n, s, i, replies);
    forall t: nat, k: nat | t < s.nodes[i].term && OwnEntry(s, t, k) && CommitPossible(n, s, t, k)
      ensures Holds(s, s.nodes[i].log, t, k)
    {
      WinnerHolds(n, s, i, t, k);
    }
    CrownedLock(n, s, WonStep(s, i), i);
    CrownedRetain(n, s, WonStep(s, i), i);
    CrownedVotes(n, s, WonStep(s, i), i);
  }

  lemma WonLinks(n: nat, s: System, i: Node, replies: map<Node, (nat, bool)>)
    requires Shaped(n, s) && Wins(n, s, i, replies) && s.nodes[i].term !in s.reigns
    requires AppendInv(n, s) && LinkInv(n, s) && AckInv(n, s) && VoteInv(n, s) && RequestInv(n, s)
    ensures LinkInv(n, WonStep(s, i)) && AckInv(n, WonStep(s, i)) && VoteInv(n, WonStep(s, i))
    ensures RequestInv(n, WonStep(s, i))
  {
    var s' := WonStep(s, i);
    forall j: Node, t: nat, c: Node | Granted(s', j, t, c)
      ensures Granted(s, j, t, c)
    {
    }
    assert forall k :: 0 <= k < |s.appends| ==> s.appends[k].term in s.reigns;
  }

  lemma WonNodes(n: nat, s: System, i: Node, replies: map<Node, (nat, bool)>, j: Node)
    requires Inv(n, s) && Wins(n, s, i, replies) && Crowned(n, s, WonStep(s, i), i) && j < n
    ensures RoleInv(WonStep(s, i), j) && StoreInv(WonStep(s, i), j) && TaskInv(WonStep(s, i), j)
  {
    var s' := WonStep(s, i);
    assert RoleInv(s, j) && StoreInv(s, j) && TaskInv(s, j);
    if j == i {
      BackedGrows(n, s, s', s.nodes[i].log, s.nodes[i].log, s.nodes[i].commitIndex, s.src[i], s'.src[i]);
    } else {
      NodeKept(n, s, s', j);
    }
  }

  lemma WonKeeps(n: nat, s: System, i: Node, replies: map<Node, (nat, bool)>)
    requires Inv(n, s) && Wins(n, s, i, replies)
    ensures Inv(n, WonStep(s, i))
  {
    var s' := WonStep(s, i);
    WinnerIsCrowned(n, s, i, replies);
    WonLocks(n, s, i, replies);
    WinnerIsFirst(n, s, i, replies);
    WonLinks(n, s, i, replies);
    AppendsKept(n, s, s');
    PointsKept(n, s, s');
    forall j: Node | j < n
      ensures RoleInv(s', j) && StoreInv(s', j) && TaskInv(s', j)
    {
      WonNodes(n, s, i, replies, j);
    }
    forall u: nat | u in s'.reigns
      ensures ReignInv(n, s', u)
    {
      WonReigns(n, s, i, replies, u);
    }
  }
}
