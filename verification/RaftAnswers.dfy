/** How a node answers requests and replies, by the history of the run: votes, terms, logs and commits. */
module RaftAnswers {
  import opened Options
  import opened Quorums
  import opened RaftNode
  import opened RaftSystem
  import opened RaftTheorems

  /** A recorded vote is one that was granted. */
  ghost predicate VoteRecorded(s: System, i: Node)
    requires i < |s.nodes|
  {
    && s.nodes[i].disk == DurablePart(s.nodes[i])
    && (s.nodes[i].votedFor.Some? ==> Granted(s, i, s.nodes[i].term, s.nodes[i].votedFor.value))
  }

  lemma {:induction false} ApplyKeepsVote(node: NodeState)
    ensures Apply(node).Some? ==>
              var r := Apply(node).value;
              r.term == node.term && r.role == node.role && r.votedFor == node.votedFor && r.log == node.log
              && r.commitIndex == node.commitIndex && r.disk == node.disk
    decreases node.commitIndex - node.applied
  {
    if node.applied < node.commitIndex && node.applied < |node.log| {
      ApplyKeepsVote(node.(kv := Execute(node.kv, node.log[node.applied].cmd), applied := node.applied + 1));
    }
  }

  /** What is left of a node: its own vote of its term, or none. */
  ghost predicate VoteKept(before: NodeState, after: NodeState) {
    && after.disk == DurablePart(after) && after.term >= before.term
    && (after.votedFor.Some? ==> after.votedFor == before.votedFor && after.term == before.term)
  }

  lemma AppendKeepsVote(node: NodeState, term: nat, commit: nat, entries: seq<Entry>)
    requires node.disk == DurablePart(node)
    ensures OnAppend(node, term, commit, entries).Some? ==>
              var (after, t, _) := OnAppend(node, term, commit, entries).value;
              VoteKept(node, after) && after.term >= term && t == after.term
  {
    ApplyKeepsVote(node.(votedFor := if term > node.term then None else node.votedFor, term := term, role := Follower,
                         log := entries, commitIndex := Max(node.commitIndex, Min(commit, |entries|))));
  }

  lemma BeatKeepsVote(n: nat, i: Node, node: NodeState, term: nat, selfLen: nat, acked: map<Node, (nat, nat)>,
                      after: NodeState)
    requires node.disk == DurablePart(node) && FinishBeat(n, i, node, term, selfLen, acked, Some(after))
    ensures VoteKept(node, after) && forall p :: p in acked ==> after.term >= acked[p].0
  {
    var top: nat, agreed: nat :| IsHighest(term, AckTerms(acked), top) && IsAgreed(n, i, term, selfLen, acked, agreed)
                                 && Some(after) == SettleBeat(node, term, top, agreed);
    ApplyKeepsVote(Persist(Advance(node, term, agreed)));
    assert forall p :: p in acked ==> AckTerms(acked)[p] == acked[p].0;
  }

  lemma CampaignEndKeepsVote(n: nat, node: NodeState, term: nat, replies: map<Node, (nat, bool)>, after: NodeState)
    requires node.disk == DurablePart(node) && FinishCampaign(n, node, term, replies, after)
    ensures VoteKept(node, after) && forall p :: p in replies ==> after.term >= replies[p].0
  {
    assert forall p :: p in replies ==> VoteTerms(replies)[p] == replies[p].0;
  }

  lemma KeptIsRecorded(s: System, s': System, i: Node)
    requires i < |s.nodes| == |s'.nodes| && VoteRecorded(s, i) && s.votes <= s'.votes
    requires VoteKept(s.nodes[i], s'.nodes[i])
    ensures VoteRecorded(s', i)
  {
  }

  lemma StepRecords(n: nat, s: System, s': System, step: Step)
    requires Shaped(n, s) && Shaped(n, s') && NextStep(n, s, s', step) && VoteRecorded(s, step.i)
    ensures VoteRecorded(s', step.i) && s.votes <= s'.votes
  {
    var i := step.i;
    match step {
      case Campaign(_) =>
      case VoteOn(_, _) =>
      case EndCampaign(_, replies, after) =>
        CampaignEndKeepsVote(n, s.nodes[i], s.tasks[i].term, replies, after);
        KeptIsRecorded(s, s', i);
      case Beat(_) => KeptIsRecorded(s, s', i);
      case Adopt(_, k) =>
        AppendKeepsVote(s.nodes[i], s.appends[k].term, s.appends[k].commit, s.appends[k].log);
        KeptIsRecorded(s, s', i);
      case EndBeat(_, acked, after) =>
        BeatKeepsVote(n, i, s.nodes[i], s.tasks[i].term, s.tasks[i].selfLen, acked, after);
        KeptIsRecorded(s, s', i);
      case Command(_, _) => KeptIsRecorded(s, s', i);
      case Get(_) =>
        ApplyKeepsVote(s.nodes[i]);
        KeptIsRecorded(s, s', i);
      case Restart(_) =>
        var d := s.nodes[i].disk;
        ApplyKeepsVote(NodeState(d.term, Follower, d.votedFor, d.log, d.commitIndex, 0, map[], d));
        KeptIsRecorded(s, s', i);
    }
  }

  lemma StepElsewhere(n: nat, s: System, s': System, step: Step, j: Node)
    requires Shaped(n, s) && Shaped(n, s') && NextStep(n, s, s', step) && j < n && j != step.i && VoteRecorded(s, j)
    ensures VoteRecorded(s', j)
  {
  }

  lemma NextRecords(n: nat, s: System, s': System, i: Node)
    requires Shaped(n, s) && Shaped(n, s') && Next(n, s, s') && i < n && VoteRecorded(s, i)
    ensures VoteRecorded(s', i)
  {
    var step :| NextStep(n, s, s', step);
    if step.i == i {
      StepRecords(n, s, s', step);
    } else {
      StepElsewhere(n, s, s', step, i);
    }
  }

  lemma {:induction false} RunRecords(n: nat, run: seq<System>, a: nat, i: Node)
    requires IsRun(n, run) && a < |run| && i < n
    ensures VoteRecorded(run[a], i)
  {
    if a == 0 {
      ApplyKeepsVote(NodeState(0, Follower, None, [], 0, 0, map[], NO_FILE));
    } else {
      RunRecords(n, run, a - 1, i);
      assert Next(n, run[a - 1], run[a - 1 + 1]);
      NextRecords(n, run[a - 1], run[a], i);
    }
  }

  // --------------------------------------------------------------------- all runs

  /** The requester's log, of that length and last term, is at least as up to date as this one. */
  ghost predicate AtLeastAs(lastIndex: nat, lastTerm: nat, log: seq<Entry>) {
    log == [] || log[|log| - 1].term < lastTerm || (log[|log| - 1].term == lastTerm && |log| <= lastIndex)
  }

  /**
    A node that handles a vote request grants it exactly when it is in no later term, has
    granted no other candidate of the term, and its log is no more up to date.
    */
  lemma GrantsExactly(n: nat, run: seq<System>, a: nat, v: Node, req: VoteRequest)
    requires n >= 1 && IsRun(n, run) && a + 1 < |run| && NextStep(n, run[a], run[a + 1], VoteOn(v, req))
    ensures Granted(run[a + 1], v, req.term, req.cand) <==>
              || Granted(run[a], v, req.term, req.cand)
              || (&& run[a].nodes[v].term <= req.term
                  && (forall c: Node :: Granted(run[a], v, req.term, c) ==> c == req.cand)
                  && AtLeastAs(req.lastIndex, req.lastTerm, run[a].nodes[v].log))
  {
    var s, node := run[a], run[a].nodes[v];
    RunInv(n, run, a);
    RunRecords(n, run, a, v);
    assert VoteInv(n, s);
    var (after, term, granted) := OnRequestVote(node, req.term, req.cand, req.lastIndex, req.lastTerm);
    assert run[a + 1].votes == s.votes + {Vote(v, req.cand, req.term, term, granted)};
    assert LogOk(node, req.lastIndex, req.lastTerm) <==> AtLeastAs(req.lastIndex, req.lastTerm, node.log);
  }

  /** A node is never left behind a term that a request or a reply brings it. */
  lemma KeepsUp(n: nat, run: seq<System>, a: nat, step: Step)
    requires n >= 1 && IsRun(n, run) && a + 1 < |run| && NextStep(n, run[a], run[a + 1], step)
    ensures var term := run[a + 1].nodes[step.i].term;
            && term >= run[a].nodes[step.i].term
            && (step.Campaign? ==> term == run[a].nodes[step.i].term + 1)
            && (step.VoteOn? ==> term >= step.req.term)
            && (step.Adopt? ==> term >= run[a].appends[step.k].term)
            && (step.EndCampaign? ==> forall p :: p in step.replies ==> term >= step.replies[p].0)
            && (step.EndBeat? ==> forall p :: p in step.acked ==> term >= step.acked[p].0)
  {
    var s, i := run[a], step.i;
    RunRecords(n, run, a, i);
    match step {
      case Campaign(_) =>
      case VoteOn(_, _) =>
      case EndCampaign(_, replies, after) => CampaignEndKeepsVote(n, s.nodes[i], s.tasks[i].term, replies, after);
      case Beat(_) =>
      case Adopt(_, k) => AppendKeepsVote(s.nodes[i], s.appends[k].term, s.appends[k].commit, s.appends[k].log);
      case EndBeat(_, acked, after) =>
        BeatKeepsVote(n, i, s.nodes[i], s.tasks[i].term, s.tasks[i].selfLen, acked, after);
      case Command(_, _) =>
      case Get(_) => ApplyKeepsVote(s.nodes[i]);
      case Restart(_) =>
        var d := s.nodes[i].disk;
        ApplyKeepsVote(NodeState(d.term, Follower, d.votedFor, d.log, d.commitIndex, 0, map[], d));
    }
  }

  /**
    A node that handles an append request of a term not before its own follows that term, has
    the request's log, has applied all it knows committed, and knows committed what it knew
    or what the request names, whichever is more; and it acknowledges the log's length.
    */
  lemma AdoptsExactly(n: nat, run: seq<System>, a: nat, i: Node, k: nat)
    requires n >= 1 && IsRun(n, run) && a + 1 < |run| && NextStep(n, run[a], run[a + 1], Adopt(i, k))
    ensures var req, before, after := run[a].appends[k], run[a].nodes[i], run[a + 1].nodes[i];
            if req.term < before.term then after == before
            else && after.term == req.term && after.role == Follower && after.log == req.log
                 && after.commitIndex == (if req.commit >= before.commitIndex then req.commit else before.commitIndex)
                 && after.applied == after.commitIndex
                 && Ack(i, req.from, req.term, req.term, |req.log|) in run[a + 1].acks
  {
    RunInv(n, run, a);
    assert StoreInv(run[a], i) && AppendInv(n, run[a]);
    Adopts(run[a].nodes[i], run[a].appends[k].term, run[a].appends[k].commit, run[a].appends[k].log);
  }

  lemma Adopts(node: NodeState, term: nat, commit: nat, entries: seq<Entry>)
    requires node.applied <= node.commitIndex && commit <= |entries|
    ensures OnAppend(node, term, commit, entries).Some? ==>
              var (after, t, len) := OnAppend(node, term, commit, entries).value;
              if term < node.term then after == node
              else && after.term == t == term && after.role == Follower && after.log == entries && len == |entries|
                   && after.commitIndex == (if commit >= node.commitIndex then commit else node.commitIndex)
                   && after.applied == after.commitIndex
  {
    var adopted := node.(votedFor := if term > node.term then None else node.votedFor, term := term,
                         role := Follower, log := entries,
                         commitIndex := Max(node.commitIndex, Min(commit, |entries|)));
    ApplyKeepsVote(adopted);
    AppliedAll(adopted);
  }

  lemma {:induction false} AppliedAll(node: NodeState)
    requires node.applied <= node.commitIndex
    ensures Apply(node).Some? ==> Apply(node).value.applied == node.commitIndex
    decreases node.commitIndex - node.applied
  {
    if node.applied < node.commitIndex && node.applied < |node.log| {
      AppliedAll(node.(kv := Execute(node.kv, node.log[node.applied].cmd), applied := node.applied + 1));
    }
  }

  lemma FewerHold(me: Node, term: nat, selfLen: nat, acks: map<Node, (nat, nat)>, x: nat, y: nat)
    requires x <= y
    ensures |Holders(me, term, selfLen, acks, y)| <= |Holders(me, term, selfLen, acks, x)|
  {
    SubsetSize(Holders(me, term, selfLen, acks, y), Holders(me, term, selfLen, acks, x));
  }

  lemma NoTwoAgreed(n: nat, me: Node, term: nat, selfLen: nat, acks: map<Node, (nat, nat)>, x: nat, y: nat)
    requires |Holders(me, term, selfLen, acks, x + 1)| < Majority(n) <= |Holders(me, term, selfLen, acks, y)|
    ensures y <= x
  {
    if x < y {
      FewerHold(me, term, selfLen, acks, x + 1, y);
    }
  }

  lemma AgreedIsOne(n: nat, me: Node, term: nat, selfLen: nat, acks: map<Node, (nat, nat)>, x: nat, y: nat)
    requires IsAgreed(n, me, term, selfLen, acks, x) && IsAgreed(n, me, term, selfLen, acks, y)
    ensures x == y
  {
    if |Holders(me, term, selfLen, acks, 0)| >= Majority(n) {
      NoTwoAgreed(n, me, term, selfLen, acks, x, y);
      NoTwoAgreed(n, me, term, selfLen, acks, y, x);
    }
  }

  /**
    At the end of a round in which no higher term was heard, a leader of the round's term has
    committed up to the longest length a majority acknowledged, if that is past what it had
    committed and ends in an entry of its term, and else no more than before.
    */
  lemma CommitsExactly(n: nat, run: seq<System>, a: nat, i: Node, acked: map<Node, (nat, nat)>, after: NodeState,
                       agreed: nat)
    requires n >= 1 && IsRun(n, run) && a + 1 < |run| && NextStep(n, run[a], run[a + 1], EndBeat(i, acked, after))
    requires run[a].nodes[i].role == Leader && run[a].nodes[i].term == run[a].tasks[i].term
    requires forall p :: p in acked ==> acked[p].0 <= run[a].nodes[i].term
    requires IsAgreed(n, i, run[a].tasks[i].term, run[a].tasks[i].selfLen, acked, agreed)
    ensures var before := run[a].nodes[i];
            && after.role == Leader && after.term == before.term && after.log == before.log
            && after.commitIndex == if before.commitIndex < agreed <= |before.log|
                                       && before.log[agreed - 1].term == before.term
                                    then agreed else before.commitIndex
  {
    var before, term, selfLen := run[a].nodes[i], run[a].tasks[i].term, run[a].tasks[i].selfLen;
    var top: nat, x: nat :| IsHighest(term, AckTerms(acked), top) && IsAgreed(n, i, term, selfLen, acked, x)
                            && Some(after) == SettleBeat(before, term, top, x);
    AgreedIsOne(n, i, term, selfLen, acked, x, agreed);
    RunInv(n, run, a);
    assert RoleInv(run[a], i) && StoreInv(run[a], i);
    SettledNode(n, run[a], i, term, top, agreed);
    ApplyKeepsVote(before);
  }
}
