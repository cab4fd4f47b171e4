/** The replication steps keep the invariant: client commands, heartbeats, adopted logs, commits. */
module RaftReplication {
  import opened Options
  import opened Quorums
  import opened RaftNode
  import opened RaftSystem
  import opened RaftSafety
  import Text

  // ------------------------------------------------------------------- commands

  /** The leader's log, and with it its term's log, gets one more entry of its term. */
  ghost predicate Appended(n: nat, s: System, s': System, i: Node, e: Entry) {
    && Shaped(n, s) && Shaped(n, s') && i < n
    && s.nodes[i].role == Leader && e.term == s.nodes[i].term && e.term in s.reigns
    && s.nodes[i].log == LogOf(s, s.nodes[i].term)
    && s' == s.(nodes := s.nodes[i := Persist(s.nodes[i].(log := s.nodes[i].log + [e]))],
                reigns := s.reigns[e.term := s.reigns[e.term].(log := s.nodes[i].log + [e])])
  }

  lemma AppendedLater(n: nat, s: System, s': System, i: Node, e: Entry)
    requires Appended(n, s, s', i, e)
    ensures Later(n, s, s')
  {
    forall t | t in s.reigns
      ensures s.reigns[t].log <= s'.reigns[t].log
    {
    }
  }

  // A new last entry of the leader's term is acknowledged by nobody yet.
  lemma FreshEntry(n: nat, s: System, s': System, i: Node, e: Entry, t: nat, k: nat)
    requires Appended(n, s, s', i, e) && AckInv(n, s) && OwnEntry(s', t, k)
    ensures || OwnEntry(s, t, k)
            || (t == e.term && k == |LogOf(s, t)| + 1 && forall j: Node :: j < n ==> !Acked(s, j, t, k))
  {
    if t != e.term || k <= |LogOf(s, t)| {
      assert OwnEntry(s, t, k);
    }
  }

  ghost predicate Elected(n: nat, s: System, u: nat)
    requires u in s.reigns
  {
    |Voters(n, s, u, s.reigns[u].leader)| >= Majority(n)
  }

  /** A later leader u that must hold the first k entries of term t. */
  ghost predicate Locked(n: nat, s: System, t: nat, k: nat, u: nat)
    requires Shaped(n, s)
  {
    OwnEntry(s, t, k) && t < u && u in s.reigns && CommitPossible(n, s, t, k)
  }

  lemma LockLater(n: nat, s: System, s': System)
    requires Later(n, s, s') && Lock(n, s)
    requires forall t: nat, k: nat, u: nat :: Locked(n, s', t, k, u) ==> Locked(n, s, t, k, u)
    ensures Lock(n, s')
  {
    forall t: nat, k: nat, u: nat | OwnEntry(s', t, k) && t < u && u in s'.reigns && CommitPossible(n, s', t, k)
      ensures k <= s'.reigns[u].base && Holds(s', LogOf(s', u), t, k)
    {
      assert Locked(n, s', t, k, u);
      HoldsGrows(n, s, s', LogOf(s, u), LogOf(s', u), t, k);
    }
  }

  /** The new entry is not among those a later leader has to hold. */
  lemma LockedBefore(n: nat, s: System, s': System, i: Node, e: Entry, t: nat, k: nat, u: nat)
    requires Appended(n, s, s', i, e) && AckInv(n, s) && VoteInv(n, s)
    requires Locked(n, s', t, k, u) && (u in s.reigns ==> Elected(n, s, u))
    ensures Locked(n, s, t, k, u)
  {
    AppendedLater(n, s, s', i, e);
    PossibleShrinks(n, s, s', t, k);
    FreshEntry(n, s, s', i, e, t, k);
    if !OwnEntry(s, t, k) {
      NobodyLeft(n, s, t, k, u);
      assert false;
    }
  }

  lemma AppendedLock(n: nat, s: System, s': System, i: Node, e: Entry)
    requires Appended(n, s, s', i, e) && Lock(n, s) && AckInv(n, s) && VoteInv(n, s)
    requires forall u: nat :: u in s.reigns ==> Elected(n, s, u)
    ensures Lock(n, s')
  {
    AppendedLater(n, s, s', i, e);
    forall t: nat, k: nat, u: nat | Locked(n, s', t, k, u)
      ensures Locked(n, s, t, k, u)
    {
      LockedBefore(n, s, s', i, e, t, k, u);
    }
    LockLater(n, s, s');
  }

  /** Once a later leader is elected, an entry nobody acknowledged can no longer be committed. */
  lemma NobodyLeft(n: nat, s: System, t: nat, k: nat, u: nat)
    requires Shaped(n, s) && VoteInv(n, s) && u in s.reigns && Elected(n, s, u) && t < u
    requires forall j: Node :: j < n ==> !Acked(s, j, t, k)
    ensures !CommitPossible(n, s, t, k)
  {
    if CommitPossible(n, s, t, k) {
      var j := MajoritiesMeet(n, Voters(n, s, u, s.reigns[u].leader), PossibleAckers(n, s, t, k));
      LateVoter(n, s, j, u, s.reigns[u].leader);
      assert false;
    }
  }

  lemma LateVoter(n: nat, s: System, j: Node, u: nat, c: Node)
    requires Shaped(n, s) && VoteInv(n, s) && Granted(s, j, u, c)
    ensures j < n && u <= s.nodes[j].term
  {
  }

  lemma AppendedRetain(n: nat, s: System, s': System, i: Node, e: Entry)
    requires Inv(n, s) && Appended(n, s, s', i, e)
    ensures Retain(n, s')
  {
    AppendedLater(n, s, s', i, e);
    forall j: Node, t: nat, k: nat | j < n && Acked(s', j, t, k) && OwnEntry(s', t, k) && CommitPossible(n, s', t, k)
      ensures Holds(s', s'.nodes[j].log, t, k)
    {
      PossibleShrinks(n, s, s', t, k);
      FreshEntry(n, s, s', i, e, t, k);
      assert Acked(s, j, t, k);
      HoldsGrows(n, s, s', s.nodes[j].log, s'.nodes[j].log, t, k);
    }
  }

  lemma AppendedVotes(n: nat, s: System, s': System, i: Node, e: Entry)
    requires Inv(n, s) && Appended(n, s, s', i, e)
    ensures VoteRetain(n, s')
  {
    AppendedLater(n, s, s', i, e);
    forall j: Node, c: Node, t: nat, k: nat |
      j < n && c < n && s'.nodes[c].role == Candidate && Granted(s', j, s'.nodes[c].term, c) && t < s'.nodes[c].term
      && Acked(s', j, t, k) && OwnEntry(s', t, k) && CommitPossible(n, s', t, k)
      ensures Holds(s', s'.nodes[c].log, t, k)
    {
      PossibleShrinks(n, s, s', t, k);
      FreshEntry(n, s, s', i, e, t, k);
      assert Acked(s, j, t, k) && Granted(s, j, s.nodes[c].term, c);
      HoldsGrows(n, s, s', s.nodes[c].log, s'.nodes[c].log, t, k);
    }
  }

  lemma AppendedReigns(n: nat, s: System, s': System, i: Node, e: Entry, u: nat)
    requires Appended(n, s, s', i, e) && u in s.reigns && ReignInv(n, s, u)
    ensures ReignInv(n, s', u)
  {
    AppendedLater(n, s, s', i, e);
    if u != e.term {
      ReignKept(n, s, s', u);
    } else {
      var log, log' := s.reigns[u].log, s'.reigns[u].log;
      VotersGrow(n, s, s', u, s.reigns[u].leader);
      forall k: nat | k < |log'|
        ensures MatchesAt(s', log', k)
      {
        if k < |log| {
          assert MatchesAt(s, log, k);
          HoldsGrows(n, s, s', log, log', log[k].term, k + 1);
        }
      }
    }
  }

  lemma AppendedLinks(n: nat, s: System, s': System, i: Node, e: Entry)
    requires Inv(n, s) && Appended(n, s, s', i, e)
    ensures AppendInv(n, s') && LinkInv(n, s')
  {
    AppendedLater(n, s, s', i, e);
    AppendsKept(n, s, s');
    assert RoleInv(s, i);
    forall j: Node, k |
      && j < n && 0 <= k < |s'.appends| && s'.appends[k].term == s'.src[j]
      && s'.appends[k].from != j && Cursor(s', s'.appends[k].from, j) <= k
      ensures |s'.nodes[j].log| <= |s'.appends[k].log|
    {
      assert j != i;
    }
  }

  lemma AppendedBallots(n: nat, s: System, s': System, i: Node, e: Entry)
    requires Inv(n, s) && Appended(n, s, s', i, e)
    ensures VoteInv(n, s') && RequestInv(n, s') && AckInv(n, s')
  {
    AppendedLater(n, s, s', i, e);
    forall j: Node, t: nat, c: Node | Granted(s', j, t, c)
      ensures Granted(s, j, t, c)
    {
    }
  }

  lemma AppendedNodes(n: nat, s: System, s': System, i: Node, e: Entry, j: Node)
    requires Appended(n, s, s', i, e) && j < n && RoleInv(s, j) && StoreInv(s, j) && TaskInv(s, j) && RoleInv(s, i)
    ensures RoleInv(s', j) && StoreInv(s', j) && TaskInv(s', j)
  {
    AppendedLater(n, s, s', i, e);
    if j == i {
      BackedGrows(n, s, s', s.nodes[i].log, s'.nodes[i].log, s.nodes[i].commitIndex, s.src[i], s.src[i]);
      assert s'.nodes[i].log[..s.nodes[i].applied] == s.nodes[i].log[..s.nodes[i].applied];
    } else {
      NodeKept(n, s, s', j);
    }
  }

  lemma AppendedKeeps(n: nat, s: System, s': System, i: Node, e: Entry)
    requires Inv(n, s) && Appended(n, s, s', i, e)
    ensures Inv(n, s')
  {
    AppendedLater(n, s, s', i, e);
    forall u: nat | u in s.reigns
      ensures Elected(n, s, u)
    {
      assert ReignInv(n, s, u);
    }
    AppendedLock(n, s, s', i, e);
    AppendedRetain(n, s, s', i, e);
    AppendedVotes(n, s, s', i, e);
    AppendedLinks(n, s, s', i, e);
    AppendedBallots(n, s, s', i, e);
    PointsKept(n, s, s');
    forall u: nat | u in s'.reigns
      ensures ReignInv(n, s', u)
    {
      AppendedReigns(n, s, s', i, e, u);
    }
    forall j: Node | j < n
      ensures RoleInv(s', j) && StoreInv(s', j) && TaskInv(s', j)
    {
      AppendedNodes(n, s, s', i, e, j);
    }
  }

  lemma CommandAppends(n: nat, s: System, i: Node, line: string)
    requires Shaped(n, s) && i < n && RoleInv(s, i) && s.nodes[i].role == Leader && Accepted(line)
    ensures Appended(n, s, CommandStep(s, i, line), i, Entry(s.nodes[i].term, Text.Trim(line)))
  {
  }

  lemma CommandRejected(n: nat, s: System, i: Node, line: string)
    requires Shaped(n, s) && i < n && RoleInv(s, i) && !(s.nodes[i].role == Leader && Accepted(line))
    ensures CommandStep(s, i, line) == s
  {
    var s' := CommandStep(s, i, line);
    assert s'.nodes == s.nodes;
    assert s'.reigns == s.reigns;
  }

  lemma CommandKeeps(n: nat, s: System, i: Node, line: string)
    requires Inv(n, s) && i < n
    ensures Inv(n, CommandStep(s, i, line))
  {
    assert RoleInv(s, i);
    if s.nodes[i].role == Leader && Accepted(line) {
      CommandAppends(n, s, i, line);
      AppendedKeeps(n, s, CommandStep(s, i, line), i, Entry(s.nodes[i].term, Text.Trim(line)));
    } else {
      CommandRejected(n, s, i, line);
    }
  }

  // ----------------------------------------------------------------- heartbeats

  /** Node i sends its whole log to everyone, and counts itself. */
  ghost predicate Sent(n: nat, s: System, s': System, i: Node) {
    && Shaped(n, s) && i < n && s.nodes[i].role == Leader && s' == BeatStep(s, i)
  }

  lemma SentAcks(n: nat, s: System, s': System, i: Node, j: Node, t: nat, k: nat)
    requires Sent(n, s, s', i)
    ensures Acked(s', j, t, k) ==> Acked(s, j, t, k) || (j == i && t == s.nodes[i].term && k <= |s.nodes[i].log|)
  {
  }

  lemma SentLocks(n: nat, s: System, s': System, i: Node)
    requires Inv(n, s) && Sent(n, s, s', i)
    ensures Retain(n, s') && VoteRetain(n, s')
  {
    assert RoleInv(s, i);
    SentRetain(n, s, s', i);
    SentVotes(n, s, s', i);
  }

  lemma SentRetain(n: nat, s: System, s': System, i: Node)
    requires Sent(n, s, s', i) && RoleInv(s, i) && Retain(n, s)
    ensures Retain(n, s')
  {
    forall j: Node, t: nat, k: nat | j < n && Acked(s', j, t, k) && OwnEntry(s', t, k) && CommitPossible(n, s', t, k)
      ensures Holds(s', s'.nodes[j].log, t, k)
    {
      PossibleShrinks(n, s, s', t, k);
      SentAcks(n, s, s', i, j, t, k);
      assert OwnEntry(s, t, k);
      if Acked(s, j, t, k) {
        assert Holds(s, s.nodes[j].log, t, k);
      }
    }
  }

  lemma SentVotes(n: nat, s: System, s': System, i: Node)
    requires Sent(n, s, s', i) && VoteInv(n, s) && VoteRetain(n, s)
    ensures VoteRetain(n, s')
  {
    forall j: Node, c: Node, t: nat, k: nat |
      j < n && c < n && s'.nodes[c].role == Candidate && Granted(s', j, s'.nodes[c].term, c) && t < s'.nodes[c].term
      && Acked(s', j, t, k) && OwnEntry(s', t, k) && CommitPossible(n, s', t, k)
      ensures Holds(s', s'.nodes[c].log, t, k)
    {
      PossibleShrinks(n, s, s', t, k);
      SentAcks(n, s, s', i, j, t, k);
      assert Granted(s, j, s.nodes[c].term, c);
      assert Acked(s, j, t, k) && OwnEntry(s, t, k);
      assert Holds(s, s.nodes[c].log, t, k);
    }
  }

  lemma SentAppends(n: nat, s: System, s': System, i: Node)
    requires Sent(n, s, s', i) && RoleInv(s, i) && StoreInv(s, i) && AppendInv(n, s)
    requires s.reigns[s.nodes[i].term].base <= |s.nodes[i].log|
    ensures AppendInv(n, s')
  {
    assert Later(n, s, s');
    forall k | 0 <= k < |s'.appends|
      ensures CommitBacked(s', s'.appends[k].log, s'.appends[k].commit, s'.appends[k].term)
    {
      var a := s'.appends[k];
      BackedGrows(n, s, s', a.log, a.log, a.commit, a.term, a.term);
    }
    forall j, k | 0 <= j < k < |s'.appends| && s'.appends[j].term == s'.appends[k].term
      ensures |s'.appends[j].log| <= |s'.appends[k].log|
    {
      assert s.appends[j].log <= LogOf(s, s.appends[j].term);
    }
  }

  lemma SentLinks(n: nat, s: System, s': System, i: Node)
    requires Sent(n, s, s', i) && LinkInv(n, s) && RoleInv(s, i)
    requires forall j: Node :: j < n ==> s.nodes[j].log <= LogOf(s, s.src[j])
    ensures LinkInv(n, s')
  {
  }

  lemma SentRequests(n: nat, s: System, s': System, i: Node)
    requires Inv(n, s) && Sent(n, s, s', i)
    ensures AppendInv(n, s') && LinkInv(n, s')
  {
    assert RoleInv(s, i) && StoreInv(s, i);
    assert ReignInv(n, s, s.nodes[i].term);
    forall j: Node | j < n
      ensures s.nodes[j].log <= LogOf(s, s.src[j])
    {
      assert RoleInv(s, j);
    }
    SentAppends(n, s, s', i);
    SentLinks(n, s, s', i);
  }

  lemma SentNodes(n: nat, s: System, s': System, i: Node, j: Node)
    requires Inv(n, s) && Sent(n, s, s', i) && j < n
    ensures RoleInv(s', j) && StoreInv(s', j) && TaskInv(s', j)
  {
    assert RoleInv(s, j) && StoreInv(s, j) && TaskInv(s, j);
    NodeKept(n, s, s', j);
  }

  lemma SentBallots(n: nat, s: System, s': System, i: Node)
    requires Sent(n, s, s', i) && VoteInv(n, s) && RequestInv(n, s) && AckInv(n, s) && RoleInv(s, i)
    ensures VoteInv(n, s') && RequestInv(n, s') && AckInv(n, s')
  {
    forall j: Node, t: nat, c: Node | Granted(s', j, t, c)
      ensures Granted(s, j, t, c)
    {
    }
  }

  lemma BeatKeeps(n: nat, s: System, i: Node)
    requires Inv(n, s) && i < n && s.nodes[i].role == Leader
    ensures Inv(n, BeatStep(s, i))
  {
    var s' := BeatStep(s, i);
    SentLocks(n, s, s', i);
    SentRequests(n, s, s', i);
    SentBallots(n, s, s', i);
    PointsKept(n, s, s');
    QuietLock(n, s, s');
    forall u: nat | u in s'.reigns
      ensures ReignInv(n, s', u)
    {
      ReignKept(n, s, s', u);
    }
    forall j: Node | j < n
      ensures RoleInv(s', j) && StoreInv(s', j) && TaskInv(s', j)
    {
      SentNodes(n, s, s', i, j);
    }
  }

  // ------------------------------------------------------------- adopting a log

  /** Request k reaches node i, in order, with a term the node does not reject. */
  ghost predicate Adoptable(n: nat, s: System, i: Node, k: nat)
    requires Shaped(n, s)
  {
    && i < n && k < |s.appends| && s.appends[k].from != i && Cursor(s, s.appends[k].from, i) <= k
    && s.nodes[i].term <= s.appends[k].term
  }

  lemma PointIsPossible(n: nat, s: System, t: nat, k: nat)
    requires Inv(n, s) && (t, k) in s.points
    ensures OwnEntry(s, t, k) && CommitPossible(n, s, t, k)
  {
    SubsetSize(Ackers(n, s, t, k), PossibleAckers(n, s, t, k));
  }

  /** From the leader of its own term, a node only ever receives extensions of what it has. */
  lemma SameTermExtends(n: nat, s: System, i: Node, k: nat)
    requires Inv(n, s) && Adoptable(n, s, i, k) && s.src[i] == s.appends[k].term
    ensures s.nodes[i].log <= s.appends[k].log
  {
    assert RoleInv(s, i);
    PrefixesNest(s.nodes[i].log, s.appends[k].log, LogOf(s, s.src[i]));
  }

  /** What a later leader committed or could commit, it was elected with: an adopted log has it. */
  lemma AdoptedHolds(n: nat, s: System, i: Node, k: nat, t: nat, len: nat)
    requires Inv(n, s) && Adoptable(n, s, i, k) && t < s.appends[k].term
    requires OwnEntry(s, t, len) && CommitPossible(n, s, t, len)
    ensures Holds(s, s.appends[k].log, t, len)
  {
    var a := s.appends[k];
    assert len <= s.reigns[a.term].base && Holds(s, LogOf(s, a.term), t, len);
    PrefixesNest(LogOf(s, t)[..len], a.log, LogOf(s, a.term));
  }

  /** The committed part of a node's log is in the log it is about to adopt. */
  lemma AdoptedKeepsCommitted(n: nat, s: System, i: Node, k: nat)
    requires Inv(n, s) && Adoptable(n, s, i, k)
    ensures var c, a := s.nodes[i].commitIndex, s.appends[k];
            && c <= |s.nodes[i].log| && c <= |a.log| && a.log[..c] == s.nodes[i].log[..c]
            && CommitBacked(s, a.log, c, a.term)
  {
    var c, a := s.nodes[i].commitIndex, s.appends[k];
    assert RoleInv(s, i) && StoreInv(s, i);
    if c != 0 {
      var u: nat, len: nat :| (u, len) in s.points && u <= s.src[i] && c <= len && Holds(s, s.nodes[i].log, u, c);
      AdoptedHoldsPoint(n, s, i, k, u, len, c);
    }
  }

  lemma AdoptedHoldsPoint(n: nat, s: System, i: Node, k: nat, u: nat, len: nat, c: nat)
    requires Inv(n, s) && Adoptable(n, s, i, k)
    requires (u, len) in s.points && u <= s.src[i] && c <= len && Holds(s, s.nodes[i].log, u, c)
    ensures CommitBacked(s, s.appends[k].log, c, s.appends[k].term)
    ensures c <= |s.nodes[i].log| && c <= |s.appends[k].log| && s.appends[k].log[..c] == s.nodes[i].log[..c]
  {
    assert RoleInv(s, i);
    PointIsPossible(n, s, u, len);
    if u < s.appends[k].term {
      AdoptedHolds(n, s, i, k, u, len);
      HoldsLess(s, s.appends[k].log, s.appends[k].log, u, len, c);
    } else {
      SameTermExtends(n, s, i, k);
      HoldsLess(s, s.nodes[i].log, s.appends[k].log, u, c, c);
    }
    BothHold(s, s.nodes[i].log, s.appends[k].log, u, len, c, s.appends[k].term);
  }

  lemma HoldsLess(s: System, log: seq<Entry>, log': seq<Entry>, t: nat, len: nat, c: nat)
    requires Holds(s, log, t, len) && c <= len && log <= log'
    ensures Holds(s, log', t, c)
  {
    assert LogOf(s, t)[..c] <= LogOf(s, t)[..len];
  }

  lemma BothHold(s: System, a: seq<Entry>, b: seq<Entry>, u: nat, len: nat, c: nat, t: nat)
    requires Holds(s, a, u, c) && Holds(s, b, u, c) && (u, len) in s.points && u <= t && c <= len
    ensures CommitBacked(s, b, c, t) && c <= |a| && c <= |b| && a[..c] == b[..c]
  {
  }

  /** The node after adopting request k. */
  function AdoptedNode(node: NodeState, a: AppendRequest): NodeState
    requires a.commit <= |a.log| && node.commitIndex <= |a.log|
  {
    var c := Max(node.commitIndex, a.commit);
    Persist(node.(votedFor := if a.term > node.term then None else node.votedFor, term := a.term, role := Follower,
                  log := a.log, commitIndex := c, applied := c, kv := Replay(a.log[..c])))
  }

  lemma AppendSucceeds(node: NodeState, a: AppendRequest)
    requires node.term <= a.term && a.commit <= |a.log| && node.applied <= node.commitIndex
    requires node.commitIndex <= |node.log| && node.commitIndex <= |a.log|
    requires a.log[..node.commitIndex] == node.log[..node.commitIndex]
    requires node.kv == Replay(node.log[..node.applied])
    ensures OnAppend(node, a.term, a.commit, a.log) == Some((AdoptedNode(node, a), a.term, |a.log|))
  {
    var adopted := node.(votedFor := if a.term > node.term then None else node.votedFor,
                         term := a.term, role := Follower, log := a.log,
                         commitIndex := Max(node.commitIndex, Min(a.commit, |a.log|)));
    assert a.log[..node.commitIndex][..node.applied] == a.log[..node.applied];
    assert node.log[..node.commitIndex][..node.applied] == node.log[..node.applied];
    ApplyReplays(adopted);
  }

  /** Adopting never fails, and leaves the store a replay of the committed prefix of the new log. */
  lemma AdoptSucceeds(n: nat, s: System, i: Node, k: nat)
    requires Inv(n, s) && Adoptable(n, s, i, k)
    ensures var a := s.appends[k];
            && a.commit <= |a.log| && s.nodes[i].commitIndex <= |a.log|
            && OnAppend(s.nodes[i], a.term, a.commit, a.log) == Some((AdoptedNode(s.nodes[i], a), a.term, |a.log|))
  {
    assert StoreInv(s, i);
    AdoptedKeepsCommitted(n, s, i, k);
    AppendSucceeds(s.nodes[i], s.appends[k]);
  }

  ghost predicate Adopted(n: nat, s: System, s': System, i: Node, k: nat) {
    && Shaped(n, s) && Adoptable(n, s, i, k)
    && var a := s.appends[k];
       && a.commit <= |a.log| && s.nodes[i].commitIndex <= |a.log|
       && s' == s.(nodes := s.nodes[i := AdoptedNode(s.nodes[i], a)], cursors := s.cursors[(a.from, i) := k + 1],
                   acks := s.acks + {Ack(i, a.from, a.term, a.term, |a.log|)}, src := s.src[i := a.term])
  }

  lemma AdoptedAcks(n: nat, s: System, s': System, i: Node, k: nat, j: Node, t: nat, len: nat)
    requires Adopted(n, s, s', i, k)
    ensures Acked(s', j, t, len) ==>
              Acked(s, j, t, len) || (j == i && t == s.appends[k].term && len <= |s.appends[k].log|)
  {
  }

  lemma AdoptedRetainsOne(n: nat, s: System, s': System, i: Node, k: nat, j: Node, t: nat, len: nat)
    requires Inv(n, s) && Adopted(n, s, s', i, k) && j < n
    requires Acked(s', j, t, len) && OwnEntry(s, t, len) && CommitPossible(n, s, t, len)
    ensures Holds(s, s'.nodes[j].log, t, len)
  {
    AdoptedAcks(n, s, s', i, k, j, t, len);
    if j == i {
      if Acked(s, j, t, len) {
        AckedBefore(n, s, i, k, t, len);
      } else {
        PrefixesNest(LogOf(s, t)[..len], s.appends[k].log, LogOf(s, t));
      }
    }
  }

  lemma AdoptedRetain(n: nat, s: System, s': System, i: Node, k: nat)
    requires Inv(n, s) && Adopted(n, s, s', i, k)
    ensures Retain(n, s')
  {
    assert Later(n, s, s');
    forall j: Node, t: nat, len: nat |
      j < n && Acked(s', j, t, len) && OwnEntry(s', t, len) && CommitPossible(n, s', t, len)
      ensures Holds(s', s'.nodes[j].log, t, len)
    {
      PossibleShrinks(n, s, s', t, len);
      assert OwnEntry(s, t, len);
      AdoptedRetainsOne(n, s, s', i, k, j, t, len);
      HoldsGrows(n, s, s', s'.nodes[j].log, s'.nodes[j].log, t, len);
    }
  }

  lemma AckedBefore(n: nat, s: System, i: Node, k: nat, t: nat, len: nat)
    requires Inv(n, s) && Adoptable(n, s, i, k) && Acked(s, i, t, len) && OwnEntry(s, t, len)
    requires CommitPossible(n, s, t, len)
    ensures Holds(s, s.appends[k].log, t, len)
  {
    var ack :| ack in s.acks && ack.from == i && ack.round == t && ack.term == t && ack.len >= len;
    assert Holds(s, s.nodes[i].log, t, len);
    if t < s.appends[k].term {
      AdoptedHolds(n, s, i, k, t, len);
    } else {
      SameTermExtends(n, s, i, k);
    }
  }

  lemma AdoptedVotes(n: nat, s: System, s': System, i: Node, k: nat)
    requires Adopted(n, s, s', i, k) && VoteInv(n, s) && VoteRetain(n, s)
    ensures VoteRetain(n, s')
  {
    forall j: Node, c: Node, t: nat, len: nat |
      j < n && c < n && s'.nodes[c].role == Candidate && Granted(s', j, s'.nodes[c].term, c) && t < s'.nodes[c].term
      && Acked(s', j, t, len) && OwnEntry(s', t, len) && CommitPossible(n, s', t, len)
      ensures Holds(s', s'.nodes[c].log, t, len)
    {
      PossibleShrinks(n, s, s', t, len);
      AdoptedAcks(n, s, s', i, k, j, t, len);
      assert c != i;
      assert Granted(s, j, s.nodes[c].term, c);
      assert Acked(s, j, t, len) && OwnEntry(s, t, len);
      assert Holds(s, s.nodes[c].log, t, len);
    }
  }

  lemma AdoptedLinks(n: nat, s: System, s': System, i: Node, k: nat)
    requires Inv(n, s) && Adopted(n, s, s', i, k)
    ensures LinkInv(n, s')
  {
    forall j: Node, m |
      && j < n && 0 <= m < |s'.appends| && s'.appends[m].term == s'.src[j]
      && s'.appends[m].from != j && Cursor(s', s'.appends[m].from, j) <= m
      ensures |s'.nodes[j].log| <= |s'.appends[m].log|
    {
      if j == i {
        assert s.appends[m].from == s.appends[k].from;
        assert k < m;
      } else {
        assert Cursor(s, s.appends[m].from, j) == Cursor(s', s.appends[m].from, j);
      }
    }
  }

  lemma AdoptedBallots(n: nat, s: System, s': System, i: Node, k: nat)
    requires Inv(n, s) && Adopted(n, s, s', i, k)
    ensures VoteInv(n, s') && RequestInv(n, s')
  {
    forall j: Node, t: nat, c: Node | Granted(s', j, t, c)
      ensures Granted(s, j, t, c)
    {
    }
  }

  lemma AdoptedAckInv(n: nat, s: System, s': System, i: Node, k: nat)
    requires Inv(n, s) && Adopted(n, s, s', i, k)
    ensures AckInv(n, s')
  {
    assert RoleInv(s, i);
    if s.src[i] == s.appends[k].term {
      SameTermExtends(n, s, i, k);
    }
    forall a | a in s'.acks && a.term == a.round
      ensures a.from < n && a.round <= s'.nodes[a.from].term && a.len <= |LogOf(s', a.round)|
      ensures s'.nodes[a.from].term == a.round ==> s'.src[a.from] == a.round && a.len <= |s'.nodes[a.from].log|
    {
      AdoptedAck(n, s, s', i, k, a);
    }
  }

  lemma AdoptedAck(n: nat, s: System, s': System, i: Node, k: nat, a: Ack)
    requires Shaped(n, s) && AckInv(n, s) && AppendInv(n, s) && Adopted(n, s, s', i, k)
    requires s.src[i] <= s.nodes[i].term
    requires s.src[i] == s.appends[k].term ==> s.nodes[i].log <= s.appends[k].log
    requires a in s'.acks && a.term == a.round
    ensures a.from < n && a.round <= s'.nodes[a.from].term && a.len <= |LogOf(s', a.round)|
    ensures s'.nodes[a.from].term == a.round ==> s'.src[a.from] == a.round && a.len <= |s'.nodes[a.from].log|
  {
    if a in s.acks && a.from == i && s.appends[k].term == a.round {
      assert s.nodes[i].term == a.round && s.src[i] == a.round;
    }
  }

  lemma AdoptedStore(n: nat, s: System, s': System, i: Node, k: nat)
    requires Adopted(n, s, s', i, k) && AppendInv(n, s)
    requires CommitBacked(s, s.appends[k].log, s.nodes[i].commitIndex, s.appends[k].term)
    ensures StoreInv(s', i) && RoleInv(s', i)
  {
    var a := s.appends[k];
    assert Later(n, s, s');
    BackedGrows(n, s, s', a.log, a.log, a.commit, a.term, a.term);
    BackedGrows(n, s, s', a.log, a.log, s.nodes[i].commitIndex, a.term, a.term);
  }

  lemma AdoptedNodes(n: nat, s: System, s': System, i: Node, k: nat, j: Node)
    requires Inv(n, s) && Adopted(n, s, s', i, k) && j < n
    ensures RoleInv(s', j) && StoreInv(s', j) && TaskInv(s', j)
  {
    assert RoleInv(s, j) && StoreInv(s, j) && TaskInv(s, j);
    if j != i {
      NodeKept(n, s, s', j);
    } else {
      AdoptedKeepsCommitted(n, s, i, k);
      AdoptedStore(n, s, s', i, k);
    }
  }

  lemma AdoptedKeeps(n: nat, s: System, s': System, i: Node, k: nat)
    requires Inv(n, s) && Adopted(n, s, s', i, k)
    ensures Inv(n, s')
  {
    AdoptedRetain(n, s, s', i, k);
    AdoptedVotes(n, s, s', i, k);
    AdoptedLinks(n, s, s', i, k);
    AdoptedBallots(n, s, s', i, k);
    AdoptedAckInv(n, s, s', i, k);
    AppendsKept(n, s, s');
    PointsKept(n, s, s');
    QuietLock(n, s, s');
    forall u: nat | u in s'.reigns
      ensures ReignInv(n, s', u)
    {
      ReignKept(n, s, s', u);
    }
    forall j: Node | j < n
      ensures RoleInv(s', j) && StoreInv(s', j) && TaskInv(s', j)
    {
      AdoptedNodes(n, s, s', i, k, j);
    }
  }

  lemma AdoptIsAdopted(n: nat, s: System, i: Node, k: nat)
    requires Shaped(n, s) && Adoptable(n, s, i, k)
    requires var a := s.appends[k];
             && a.commit <= |a.log| && s.nodes[i].commitIndex <= |a.log|
             && OnAppend(s.nodes[i], a.term, a.commit, a.log) == Some((AdoptedNode(s.nodes[i], a), a.term, |a.log|))
    ensures AdoptStep(s, i, k).Some? && Adopted(n, s, AdoptStep(s, i, k).value, i, k)
  {
  }

  lemma AdoptIsRejected(n: nat, s: System, i: Node, k: nat)
    requires Shaped(n, s) && i < n && k < |s.appends| && s.appends[k].term < s.nodes[i].term
    ensures AdoptStep(s, i, k).Some? && Rejected(n, s, AdoptStep(s, i, k).value, i, k)
  {
    assert s.nodes[i := s.nodes[i]] == s.nodes;
  }

  lemma AdoptKeeps(n: nat, s: System, i: Node, k: nat)
    requires Inv(n, s) && i < n && k < |s.appends| && s.appends[k].from != i && Cursor(s, s.appends[k].from, i) <= k
    ensures AdoptStep(s, i, k).Some? && Inv(n, AdoptStep(s, i, k).value)
  {
    if s.nodes[i].term <= s.appends[k].term {
      AdoptSucceeds(n, s, i, k);
      AdoptIsAdopted(n, s, i, k);
      AdoptedKeeps(n, s, AdoptStep(s, i, k).value, i, k);
    } else {
      AdoptIsRejected(n, s, i, k);
      RejectedKeeps(n, s, AdoptStep(s, i, k).value, i, k);
    }
  }

  // A rejecting reply counts for nothing: it carries a later term than the request.
  ghost predicate Rejected(n: nat, s: System, s': System, i: Node, k: nat) {
    && Shaped(n, s) && i < n && k < |s.appends| && s.nodes[i].term > s.appends[k].term
    && var a := s.appends[k];
       s' == s.(cursors := s.cursors[(a.from, i) := k + 1],
                acks := s.acks + {Ack(i, a.from, a.term, s.nodes[i].term, |s.nodes[i].log|)})
  }

  lemma RejectedAcks(n: nat, s: System, s': System, i: Node, k: nat)
    requires Rejected(n, s, s', i, k) && AckInv(n, s) && VoteInv(n, s) && RequestInv(n, s)
    ensures Later(n, s, s') && AckInv(n, s') && VoteInv(n, s') && RequestInv(n, s')
    ensures forall j: Node, t: nat, len: nat :: Acked(s', j, t, len) ==> Acked(s, j, t, len)
  {
    forall j: Node, t: nat, len: nat | Acked(s', j, t, len)
      ensures Acked(s, j, t, len)
    {
    }
    forall j: Node, t: nat, c: Node | Granted(s', j, t, c)
      ensures Granted(s, j, t, c)
    {
    }
  }

  lemma RejectedNodes(n: nat, s: System, s': System, i: Node, k: nat, j: Node)
    requires Inv(n, s) && Rejected(n, s, s', i, k) && j < n
    ensures RoleInv(s', j) && StoreInv(s', j) && TaskInv(s', j)
  {
    RejectedAcks(n, s, s', i, k);
    assert TaskInv(s, j);
    NodeKept(n, s, s', j);
  }

  lemma RejectedKeeps(n: nat, s: System, s': System, i: Node, k: nat)
    requires Inv(n, s) && Rejected(n, s, s', i, k) && Cursor(s, s.appends[k].from, i) <= k
    ensures Inv(n, s')
  {
    RejectedAcks(n, s, s', i, k);
    RejectedLocks(n, s, s');
    RejectedLinks(n, s, s', i, k);
    AppendsKept(n, s, s');
    PointsKept(n, s, s');
    QuietLock(n, s, s');
    forall u: nat | u in s'.reigns
      ensures ReignInv(n, s', u)
    {
      ReignKept(n, s, s', u);
    }
    forall j: Node | j < n
      ensures RoleInv(s', j) && StoreInv(s', j) && TaskInv(s', j)
    {
      RejectedNodes(n, s, s', i, k, j);
    }
  }

  lemma RejectedLinks(n: nat, s: System, s': System, i: Node, k: nat)
    requires Shaped(n, s) && LinkInv(n, s) && i < n && k < |s.appends| && Cursor(s, s.appends[k].from, i) <= k
    requires s' == s.(cursors := s.cursors[(s.appends[k].from, i) := k + 1], acks := s'.acks)
    ensures LinkInv(n, s')
  {
    forall j: Node, m |
      && j < n && 0 <= m < |s'.appends| && s'.appends[m].term == s'.src[j]
      && s'.appends[m].from != j && Cursor(s', s'.appends[m].from, j) <= m
      ensures |s'.nodes[j].log| <= |s'.appends[m].log|
    {
      assert Cursor(s, s.appends[m].from, j) <= Cursor(s', s.appends[m].from, j);
    }
  }

  lemma RejectedLocks(n: nat, s: System, s': System)
    requires Later(n, s, s') && Retain(n, s) && VoteRetain(n, s)
    requires s'.nodes == s.nodes && s'.votes == s.votes && s'.reigns == s.reigns
    requires forall j: Node, t: nat, len: nat :: Acked(s', j, t, len) ==> Acked(s, j, t, len)
    ensures Retain(n, s') && VoteRetain(n, s')
  {
    forall j: Node, t: nat, k: nat | j < n && Acked(s', j, t, k) && OwnEntry(s', t, k) && CommitPossible(n, s', t, k)
      ensures Holds(s', s'.nodes[j].log, t, k)
    {
      PossibleShrinks(n, s, s', t, k);
      assert OwnEntry(s, t, k);
      assert Holds(s, s.nodes[j].log, t, k);
    }
    forall j: Node, c: Node, t: nat, k: nat |
      j < n && c < n && s'.nodes[c].role == Candidate && Granted(s', j, s'.nodes[c].term, c) && t < s'.nodes[c].term
      && Acked(s', j, t, k) && OwnEntry(s', t, k) && CommitPossible(n, s', t, k)
      ensures Holds(s', s'.nodes[c].log, t, k)
    {
      PossibleShrinks(n, s, s', t, k);
      assert Granted(s, j, s.nodes[c].term, c) && OwnEntry(s, t, k);
      assert Holds(s, s.nodes[c].log, t, k);
    }
  }

  // ------------------------------------------------------------------ committing

  /** The leader of the round's term finds `agreed` entries, the last of its own term, on a majority. */
  ghost predicate Advances(n: nat, s: System, i: Node, replies: map<Node, (nat, nat)>, agreed: nat)
    requires Shaped(n, s)
  {
    && i < n && s.tasks[i].Beating? && AcksSent(s, i, replies)
    && s.nodes[i].role == Leader && s.nodes[i].term == s.tasks[i].term
    && IsAgreed(n, i, s.tasks[i].term, s.tasks[i].selfLen, replies, agreed)
    && s.nodes[i].commitIndex < agreed <= |s.nodes[i].log|
    && s.nodes[i].log[agreed - 1].term == s.nodes[i].term
  }

  /** The agreed length really is acknowledged by a majority of nodes. */
  lemma AgreedIsAcked(n: nat, s: System, i: Node, replies: map<Node, (nat, nat)>, agreed: nat)
    requires Inv(n, s) && Advances(n, s, i, replies, agreed)
    ensures |Ackers(n, s, s.nodes[i].term, agreed)| >= Majority(n)
    ensures OwnEntry(s, s.nodes[i].term, agreed)
  {
    var t := s.nodes[i].term;
    var a := Holders(i, t, s.tasks[i].selfLen, replies, agreed);
    assert RoleInv(s, i) && TaskInv(s, i);
    forall j | j in a
      ensures j in Ackers(n, s, t, agreed)
    {
      if j in PeerHolders(t, replies, agreed) {
        HasAcked(n, s, Ack(j, i, t, t, replies[j].1), agreed);
      } else {
        HasAcked(n, s, Ack(i, i, t, t, s.tasks[i].selfLen), agreed);
      }
    }
    SubsetSize(a, Ackers(n, s, t, agreed));
  }

  lemma HasAcked(n: nat, s: System, a: Ack, k: nat)
    requires Shaped(n, s) && AckInv(n, s) && a in s.acks && a.term == a.round && a.len >= k
    ensures a.from < n && Acked(s, a.from, a.round, k)
  {
  }

  /** The node after committing and applying `agreed` entries. */
  function AdvancedNode(node: NodeState, agreed: nat): NodeState
    requires agreed <= |node.log|
  {
    Persist(node.(commitIndex := agreed)).(applied := agreed, kv := Replay(node.log[..agreed]))
  }

  lemma AdvancedQuiet(n: nat, s: System, i: Node, agreed: nat)
    requires Shaped(n, s) && i < n && agreed <= |s.nodes[i].log| && s.nodes[i].commitIndex < agreed
    requires s.nodes[i].role == Leader
    ensures var s' := EndBeatStep(s, i, AdvancedNode(s.nodes[i], agreed));
            && Quiet(n, s, s') && s'.votes == s.votes && s'.requests == s.requests
            && s'.points == s.points + {(s.nodes[i].term, agreed)}
            && s'.nodes == s.nodes[i := s'.nodes[i]] && s'.tasks == s.tasks[i := s'.tasks[i]]
            && (forall c: Node :: c < n && s'.nodes[c].role == Candidate ==>
                 s.nodes[c].role == Candidate && s'.nodes[c].term == s.nodes[c].term)
  {
  }

  lemma AdvanceKeeps(n: nat, s: System, i: Node, replies: map<Node, (nat, nat)>, agreed: nat)
    requires Inv(n, s) && Advances(n, s, i, replies, agreed)
    ensures Inv(n, EndBeatStep(s, i, AdvancedNode(s.nodes[i], agreed)))
  {
    var s' := EndBeatStep(s, i, AdvancedNode(s.nodes[i], agreed));
    AgreedIsAcked(n, s, i, replies, agreed);
    AdvancedQuiet(n, s, i, agreed);
    AdvancedPoints(n, s, s', s.nodes[i].term, agreed);
    AdvancedBallots(n, s, s', i);
    assert RoleInv(s, i);
    AdvancedNodeKept(n, s, i, agreed);
    QuietVotes(n, s, s');
    QuietStep(n, s, s', i);
  }

  lemma AdvancedNodeKept(n: nat, s: System, i: Node, agreed: nat)
    requires Shaped(n, s) && i < n && RoleInv(s, i) && s.nodes[i].role == Leader && agreed <= |s.nodes[i].log|
    requires s.nodes[i].commitIndex < agreed
    ensures var s' := EndBeatStep(s, i, AdvancedNode(s.nodes[i], agreed));
            RoleInv(s', i) && StoreInv(s', i) && TaskInv(s', i)
  {
    var s' := EndBeatStep(s, i, AdvancedNode(s.nodes[i], agreed));
    assert (s.nodes[i].term, agreed) in s'.points && Holds(s', s'.nodes[i].log, s.nodes[i].term, agreed);
  }

  lemma AdvancedPoints(n: nat, s: System, s': System, t: nat, k: nat)
    requires Shaped(n, s) && PointInv(n, s) && OwnEntry(s, t, k) && |Ackers(n, s, t, k)| >= Majority(n)
    requires s'.points == s.points + {(t, k)} && s'.reigns == s.reigns && s'.acks == s.acks
    ensures PointInv(n, s')
  {
    forall u: nat, m: nat | (u, m) in s'.points
      ensures OwnEntry(s', u, m) && |Ackers(n, s', u, m)| >= Majority(n)
    {
      assert OwnEntry(s, u, m);
      AckersGrow(n, s, s', u, m);
    }
  }

  lemma AdvancedBallots(n: nat, s: System, s': System, i: Node)
    requires Shaped(n, s) && Shaped(n, s') && VoteInv(n, s) && RequestInv(n, s) && i < n
    requires s'.votes == s.votes && s'.requests == s.requests && s'.nodes == s.nodes[i := s'.nodes[i]]
    requires s'.nodes[i].term == s.nodes[i].term && s'.nodes[i].votedFor == s.nodes[i].votedFor
    requires s'.nodes[i].role == s.nodes[i].role && s'.nodes[i].log == s.nodes[i].log
    ensures VoteInv(n, s') && RequestInv(n, s')
  {
    forall j: Node, t: nat, c: Node | Granted(s', j, t, c)
      ensures Granted(s, j, t, c)
    {
    }
  }
}
