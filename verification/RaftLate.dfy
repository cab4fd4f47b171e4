/**
  What a late round can do. A deposed leader that has adopted its successor's log sends it
  under its own old term. A node that hears of the successor only then commits what an
  earlier request of the successor, handled next, takes off its log again: from its file it
  can never start.
  */
module RaftLate {
  import opened Options
  import opened Quorums
  import opened Text
  import opened RaftNode
  import opened RaftSystem
  import opened RaftLocks

  // ---------------------------------------------------------------- reachability

  ghost predicate EndsAt(n: nat, run: seq<Locks>, l: Locks) {
    IsLockRun(n, true, run) && run[|run| - 1] == l
  }

  ghost predicate Reached(n: nat, l: Locks) {
    Shaped(n, l.sys) && exists run :: EndsAt(n, run, l)
  }

  lemma OneStepOn(n: nat, l: Locks, l': Locks, step: LockStep)
    requires Reached(n, l) && NextLock(n, true, l, l', step) && Shaped(n, l'.sys)
    ensures Reached(n, l')
  {
    var run :| EndsAt(n, run, l);
    var longer := run + [l'];
    forall k | 0 <= k < |longer| - 1
      ensures LockNext(n, true, longer[k], longer[k + 1])
    {
      if k < |run| - 1 {
        assert LockNext(n, true, run[k], run[k + 1]);
      } else {
        assert NextLock(n, true, longer[k], longer[k + 1], step);
      }
    }
    assert EndsAt(n, longer, l');
  }

  /** A step of the cluster that leaves the readings alone. */
  lemma OneMore(n: nat, l: Locks, s': System, step: Step) returns (l': Locks)
    requires Reached(n, l) && !step.Beat? && !step.Restart? && (OfThread(step) ==> step.i !in l.reading)
    requires NextStep(n, l.sys, s', step) && Shaped(n, s')
    ensures Reached(n, l') && l' == Locks(s', l.reading)
  {
    l' := Locks(s', l.reading);
    OneStepOn(n, l, l', Other(step));
  }

  /** Only these nodes changed or handled a request; what was sent stays. */
  ghost predicate Frame(n: nat, s: System, s': System, changed: set<Node>) {
    && Shaped(n, s) && Shaped(n, s')
    && (forall i :: 0 <= i < n && i !in changed ==> s'.nodes[i] == s.nodes[i])
    && (forall i, from :: 0 <= i < n && i !in changed ==> Cursor(s', from, i) == Cursor(s, from, i))
    && s.appends <= s'.appends
    && s.requests <= s'.requests && s.votes <= s'.votes && s.acks <= s'.acks
  }

  lemma FrameTwice(n: nat, s0: System, s1: System, s2: System, a: set<Node>, b: set<Node>)
    requires Frame(n, s0, s1, a) && Frame(n, s1, s2, b)
    ensures Frame(n, s0, s2, a + b)
  {
  }

  // ---------------------------------------------------------------- an election

  /** Has given its vote in term t, and holds nothing. */
  function Voter(t: nat, cand: Node): NodeState {
    NodeState(t, Follower, Some(cand), [], 0, 0, map[], Durable(t, Some(cand), 0, []))
  }

  /** Leads term t, having committed some of its log. */
  function Head(t: nat, me: Node, log: seq<Entry>, commit: nat): NodeState
    requires commit <= |log|
  {
    NodeState(t, Leader, Some(me), log, commit, commit, Replay(log[..commit]), Durable(t, Some(me), commit, log))
  }

  ghost predicate Empty(node: NodeState) {
    node.log == [] && node.commitIndex == 0 && node.applied == 0 && node.kv == map[]
  }

  ghost predicate AllReady(n: nat, s: System, nodes: set<Node>, t: nat)
    requires Shaped(n, s)
  {
    forall v :: v in nodes ==> v < n && Empty(s.nodes[v]) && s.nodes[v].term < t
  }

  ghost predicate AllVoted(n: nat, s: System, nodes: set<Node>, t: nat, cand: Node)
    requires Shaped(n, s)
  {
    forall v :: v in nodes ==> v < n && s.nodes[v] == Voter(t, cand) && Vote(v, cand, t, t, true) in s.votes
  }

  lemma VoteOne(n: nat, l: Locks, cand: Node, t: nat, v: Node) returns (l': Locks)
    requires Reached(n, l) && VoteRequest(cand, t, 0, 0) in l.sys.requests && v != cand && AllReady(n, l.sys, {v}, t)
    ensures Reached(n, l') && Frame(n, l.sys, l'.sys, {v}) && AllVoted(n, l'.sys, {v}, t, cand)
    ensures l'.sys.tasks == l.sys.tasks && l'.reading == l.reading
    ensures l'.sys.appends == l.sys.appends && l'.sys.cursors == l.sys.cursors
  {
    assert v in {v};
    var req := VoteRequest(cand, t, 0, 0);
    l' := OneMore(n, l, VoteOnStep(l.sys, v, req), VoteOn(v, req));
  }

  lemma VotedToo(n: nat, s: System, s': System, nodes: set<Node>, changed: set<Node>, t: nat, cand: Node)
    requires Frame(n, s, s', changed) && AllVoted(n, s, nodes, t, cand) && nodes !! changed
    ensures AllVoted(n, s', nodes, t, cand)
  {
  }

  /** These nodes vote for the candidate. */
  lemma VoteAll(n: nat, l: Locks, cand: Node, t: nat, nodes: set<Node>) returns (l': Locks)
    requires Reached(n, l) && VoteRequest(cand, t, 0, 0) in l.sys.requests && cand !in nodes
    requires AllReady(n, l.sys, nodes, t)
    ensures Reached(n, l') && Frame(n, l.sys, l'.sys, nodes) && AllVoted(n, l'.sys, nodes, t, cand)
    ensures l'.sys.tasks == l.sys.tasks && l'.reading == l.reading
    ensures l'.sys.appends == l.sys.appends && l'.sys.cursors == l.sys.cursors
    decreases |nodes|
  {
    l' := l;
    if nodes != {} {
      var v :| v in nodes;
      var next := VoteOne(n, l, cand, t, v);
      l' := VoteAll(n, next, cand, t, nodes - {v});
      FrameTwice(n, l.sys, next.sys, l'.sys, {v}, nodes - {v});
      VotedToo(n, next.sys, l'.sys, {v}, nodes - {v}, t, cand);
      assert {v} + (nodes - {v}) == nodes;
    }
  }

  ghost predicate Canvassing(s: System, cand: Node, t: nat)
    requires cand < |s.nodes| && cand < |s.tasks|
  {
    && s.nodes[cand] == Voter(t, cand).(role := Candidate) && s.tasks[cand] == Electing(t)
    && VoteRequest(cand, t, 0, 0) in s.requests
  }

  lemma Stand(n: nat, l: Locks, cand: Node) returns (l': Locks)
    requires Reached(n, l) && cand < n && Empty(l.sys.nodes[cand]) && l.sys.nodes[cand].role != Leader
    requires l.sys.tasks[cand] == Idle && cand !in l.reading
    ensures Reached(n, l') && Frame(n, l.sys, l'.sys, {cand})
    ensures Canvassing(l'.sys, cand, l.sys.nodes[cand].term + 1)
    ensures l'.sys.tasks[cand := Idle] == l.sys.tasks && l'.reading == l.reading
    ensures l'.sys.appends == l.sys.appends && l'.sys.cursors == l.sys.cursors
  {
    l' := OneMore(n, l, CampaignStep(l.sys, cand), Campaign(cand));
  }

  lemma MajorityWins(n: nat, node: NodeState, t: nat, voters: set<Node>, replies: map<Node, (nat, bool)>)
    requires node.role == Candidate && node.term == t && 1 + |voters| >= Majority(n)
    requires replies == map v | v in voters :: (t, true)
    ensures FinishCampaign(n, node, t, replies, node.(role := Leader))
  {
    assert Supporters(t, replies) == voters;
    assert IsHighest(t, VoteTerms(replies), t);
  }

  /** A majority's votes make the candidate leader. */
  lemma Win(n: nat, l: Locks, cand: Node, t: nat, voters: set<Node>) returns (l': Locks)
    requires Reached(n, l) && cand < n && Canvassing(l.sys, cand, t) && cand !in l.reading
    requires AllVoted(n, l.sys, voters, t, cand) && cand !in voters && 1 + |voters| >= Majority(n)
    ensures Reached(n, l') && Frame(n, l.sys, l'.sys, {cand}) && l'.sys.nodes[cand] == Head(t, cand, [], 0)
    ensures l'.sys.tasks == l.sys.tasks[cand := Idle] && l'.reading == l.reading
    ensures l'.sys.appends == l.sys.appends && l'.sys.cursors == l.sys.cursors
  {
    var replies: map<Node, (nat, bool)> := map v | v in voters :: (t, true);
    var after := l.sys.nodes[cand].(role := Leader);
    MajorityWins(n, l.sys.nodes[cand], t, voters, replies);
    l' := OneMore(n, l, EndCampaignStep(l.sys, cand, after), EndCampaign(cand, replies, after));
    var none: seq<Entry> := [];
    assert none[..0] == [];
  }

  lemma Elect(n: nat, l: Locks, cand: Node, voters: set<Node>) returns (l': Locks)
    requires Reached(n, l) && cand < n && Empty(l.sys.nodes[cand]) && l.sys.nodes[cand].role != Leader
    requires l.sys.tasks[cand] == Idle && cand !in l.reading && cand !in voters && 1 + |voters| >= Majority(n)
    requires AllReady(n, l.sys, voters, l.sys.nodes[cand].term + 1)
    ensures Reached(n, l') && Frame(n, l.sys, l'.sys, voters + {cand})
    ensures l'.sys.nodes[cand] == Head(l.sys.nodes[cand].term + 1, cand, [], 0)
    ensures AllVoted(n, l'.sys, voters, l.sys.nodes[cand].term + 1, cand)
    ensures l'.sys.tasks == l.sys.tasks && l'.reading == l.reading
    ensures l'.sys.appends == l.sys.appends && l'.sys.cursors == l.sys.cursors
  {
    var t := l.sys.nodes[cand].term + 1;
    var l1 := Stand(n, l, cand);
    var l2 := VoteAll(n, l1, cand, t, voters);
    l' := Win(n, l2, cand, t, voters);
    FrameTwice(n, l.sys, l1.sys, l2.sys, {cand}, voters);
    FrameTwice(n, l.sys, l2.sys, l'.sys, {cand} + voters, {cand});
    VotedToo(n, l2.sys, l'.sys, voters, {cand}, t, cand);
    assert {cand} + voters + {cand} == voters + {cand};
  }

  // ---------------------------------------------------------------- heartbeats

  /** Both locks of a round in time. */
  lemma Send(n: nat, l: Locks, i: Node) returns (l': Locks)
    requires Reached(n, l) && i < n && l.sys.nodes[i].role == Leader && l.sys.tasks[i] == Idle && i !in l.reading
    ensures Reached(n, l') && l'.sys == SendUnder(l.sys, i, l.sys.nodes[i].term) && l'.reading == l.reading
    ensures Frame(n, l.sys, l'.sys, {})
  {
    var l1 := Locks(l.sys, l.reading[i := l.sys.nodes[i].term]);
    OneStepOn(n, l, l1, FirstLock(i));
    l' := Locks(SendUnder(l.sys, i, l.sys.nodes[i].term), l.reading);
    assert l1.reading - {i} == l.reading;
    OneStepOn(n, l1, l', SecondLock(i));
  }

  lemma SettledHead(t: nat, i: Node, log: seq<Entry>, commit: nat, agreed: nat)
    requires commit <= |log| && (agreed <= commit || (agreed <= |log| && log[agreed - 1].term == t))
    ensures var now := if agreed > commit then agreed else commit;
            now <= |log| && SettleBeat(Head(t, i, log, commit), t, t, agreed) == Some(Head(t, i, log, now))
  {
    ApplyReplays(Persist(Advance(Head(t, i, log, commit), t, agreed)));
  }

  lemma RoundFinishes(n: nat, t: nat, i: Node, log: seq<Entry>, commit: nat, agreed: nat, acked: map<Node, (nat, nat)>)
    requires commit <= |log| && (agreed <= commit || (agreed <= |log| && log[agreed - 1].term == t))
    requires (forall p :: p in acked ==> acked[p].0 == t) && IsAgreed(n, i, t, |log|, acked, agreed)
    ensures var now := if agreed > commit then agreed else commit;
            now <= |log| && FinishBeat(n, i, Head(t, i, log, commit), t, |log|, acked, Some(Head(t, i, log, now)))
  {
    SettledHead(t, i, log, commit, agreed);
    assert IsHighest(t, AckTerms(acked), t);
  }

  lemma EndRoundIsStep(n: nat, s: System, i: Node, acked: map<Node, (nat, nat)>, after: NodeState)
    requires Shaped(n, s) && i < n && s.tasks[i].Beating? && AcksSent(s, i, acked)
    requires FinishBeat(n, i, s.nodes[i], s.tasks[i].term, s.tasks[i].selfLen, acked, Some(after))
    ensures NextStep(n, s, EndBeatStep(s, i, after), EndBeat(i, acked, after))
  {
  }

  lemma EndRoundFrame(n: nat, s: System, i: Node, after: NodeState)
    requires Shaped(n, s) && i < n
    ensures Frame(n, s, EndBeatStep(s, i, after), {i})
  {
  }

  lemma EndRound(n: nat, l: Locks, i: Node, acked: map<Node, (nat, nat)>, after: NodeState) returns (l': Locks)
    requires Reached(n, l) && i < n && i !in l.reading && l.sys.tasks[i].Beating? && AcksSent(l.sys, i, acked)
    requires FinishBeat(n, i, l.sys.nodes[i], l.sys.tasks[i].term, l.sys.tasks[i].selfLen, acked, Some(after))
    ensures Reached(n, l') && Frame(n, l.sys, l'.sys, {i}) && l'.reading == l.reading
    ensures l'.sys == EndBeatStep(l.sys, i, after)
  {
    EndRoundIsStep(n, l.sys, i, acked, after);
    EndRoundFrame(n, l.sys, i, after);
    l' := OneMore(n, l, EndBeatStep(l.sys, i, after), EndBeat(i, acked, after));
  }

  /** A round ends, with what it found agreed. */
  lemma Settle(n: nat, l: Locks, i: Node, t: nat, log: seq<Entry>, commit: nat, agreed: nat,
               acked: map<Node, (nat, nat)>) returns (l': Locks)
    requires Reached(n, l) && i < n && i !in l.reading && commit <= |log| && l.sys.nodes[i] == Head(t, i, log, commit)
    requires l.sys.tasks[i] == Beating(t, |log|) && AcksSent(l.sys, i, acked)
    requires forall p :: p in acked ==> acked[p].0 == t
    requires IsAgreed(n, i, t, |log|, acked, agreed)
    requires agreed <= commit || (agreed <= |log| && log[agreed - 1].term == t)
    ensures Reached(n, l') && Frame(n, l.sys, l'.sys, {i}) && l'.reading == l.reading
    ensures var now := if agreed > commit then agreed else commit;
            now <= |log| && l'.sys == EndBeatStep(l.sys, i, Head(t, i, log, now))
  {
    var now := if agreed > commit then agreed else commit;
    RoundFinishes(n, t, i, log, commit, agreed, acked);
    l' := EndRound(n, l, i, acked, Head(t, i, log, now));
  }

  /** A round nobody answers. */
  lemma SilentRound(n: nat, l: Locks, i: Node, t: nat, log: seq<Entry>, commit: nat) returns (l': Locks)
    requires n >= 2 && Reached(n, l) && i < n && i !in l.reading && l.sys.tasks[i] == Idle
    requires commit <= |log| && l.sys.nodes[i] == Head(t, i, log, commit)
    ensures Reached(n, l') && Frame(n, l.sys, l'.sys, {i}) && l'.sys.nodes == l.sys.nodes
    ensures l'.sys.appends == l.sys.appends + [AppendRequest(i, t, log, commit)] && l'.sys.cursors == l.sys.cursors
    ensures l'.sys.tasks == l.sys.tasks && l'.reading == l.reading
  {
    var l1 := Send(n, l, i);
    assert Holders(i, t, |log|, map[], 0) == {i};
    l' := Settle(n, l1, i, t, log, commit, 0, map[]);
    FrameTwice(n, l.sys, l1.sys, l'.sys, {}, {i});
    assert {} + {i} == {i};
  }

  /** Follows in term t, with this log. */
  function Holder(t: nat, voted: Option<Node>, log: seq<Entry>, commit: nat): NodeState
    requires commit <= |log|
  {
    NodeState(t, Follower, voted, log, commit, commit, Replay(log[..commit]), Durable(t, voted, commit, log))
  }

  lemma AdoptedHolder(t: nat, voted: Option<Node>, log: seq<Entry>, commit: nat, a: AppendRequest)
    requires commit <= |log| && a.term >= t && commit <= a.commit <= |a.log| && log[..commit] <= a.log
    ensures OnAppend(Holder(t, voted, log, commit), a.term, a.commit, a.log) ==
            Some((Holder(a.term, if a.term > t then None else voted, a.log, a.commit), a.term, |a.log|))
  {
    var adopted := Holder(t, voted, log, commit).(votedFor := if a.term > t then None else voted, term := a.term,
                                                  log := a.log, commitIndex := a.commit);
    assert a.log[..commit] == log[..commit];
    ApplyReplays(adopted);
  }

  /** A node handles a request of a term not before its own. */
  lemma AdoptOne(n: nat, l: Locks, k: nat, v: Node, t: nat, voted: Option<Node>, log: seq<Entry>, commit: nat)
    returns (l': Locks)
    requires Reached(n, l) && k < |l.sys.appends| && v < n && l.sys.appends[k].from != v
    requires Cursor(l.sys, l.sys.appends[k].from, v) <= k
    requires commit <= |log| && l.sys.nodes[v] == Holder(t, voted, log, commit)
    requires l.sys.appends[k].term >= t && commit <= l.sys.appends[k].commit <= |l.sys.appends[k].log|
    requires log[..commit] <= l.sys.appends[k].log
    ensures Reached(n, l') && Frame(n, l.sys, l'.sys, {v})
    ensures var a := l.sys.appends[k];
            && l'.sys.nodes[v] == Holder(a.term, if a.term > t then None else voted, a.log, a.commit)
            && Ack(v, a.from, a.term, a.term, |a.log|) in l'.sys.acks
            && l'.sys.cursors == l.sys.cursors[(a.from, v) := k + 1]
    ensures l'.sys.appends == l.sys.appends && l'.sys.tasks == l.sys.tasks && l'.reading == l.reading
  {
    var a := l.sys.appends[k];
    AdoptedHolder(t, voted, log, commit, a);
    l' := OneMore(n, l, AdoptStep(l.sys, v, k).value, Adopt(v, k));
  }

  ghost predicate AllHold(n: nat, s: System, nodes: set<Node>, t: nat, voted: Option<Node>, log: seq<Entry>)
    requires Shaped(n, s)
  {
    forall v :: v in nodes ==> v < n && s.nodes[v] == Holder(t, voted, log, 0)
  }

  /** These nodes have acknowledged that request. */
  ghost predicate AllAcked(s: System, nodes: set<Node>, a: AppendRequest) {
    forall v :: v in nodes ==> Ack(v, a.from, a.term, a.term, |a.log|) in s.acks
  }

  ghost predicate NotYet(s: System, nodes: set<Node>, from: Node, k: nat) {
    forall v :: v in nodes ==> Cursor(s, from, v) <= k
  }

  lemma HoldToo(n: nat, s: System, s': System, nodes: set<Node>, changed: set<Node>, a: AppendRequest,
                voted: Option<Node>)
    requires Frame(n, s, s', changed) && nodes !! changed
    requires AllHold(n, s, nodes, a.term, voted, a.log) && AllAcked(s, nodes, a)
    ensures AllHold(n, s', nodes, a.term, voted, a.log) && AllAcked(s', nodes, a)
  {
  }

  /** Followers of the term handle a request that commits nothing yet. */
  lemma AdoptAll(n: nat, l: Locks, k: nat, voted: Option<Node>, nodes: set<Node>) returns (l': Locks)
    requires Reached(n, l) && k < |l.sys.appends| && l.sys.appends[k].commit == 0
    requires l.sys.appends[k].from !in nodes && NotYet(l.sys, nodes, l.sys.appends[k].from, k)
    requires AllHold(n, l.sys, nodes, l.sys.appends[k].term, voted, [])
    ensures Reached(n, l') && Frame(n, l.sys, l'.sys, nodes)
    ensures AllHold(n, l'.sys, nodes, l.sys.appends[k].term, voted, l.sys.appends[k].log)
    ensures AllAcked(l'.sys, nodes, l.sys.appends[k]) && NotYet(l'.sys, nodes, l.sys.appends[k].from, k + 1)
    ensures l'.sys.appends == l.sys.appends && l'.sys.tasks == l.sys.tasks && l'.reading == l.reading
    decreases |nodes|
  {
    l' := l;
    if nodes != {} {
      var v, next := AdoptFirst(n, l, k, voted, nodes);
      l' := AdoptAll(n, next, k, voted, nodes - {v});
      AdoptJoins(n, l.sys, next.sys, l'.sys, v, nodes, l.sys.appends[k], k, voted);
    }
  }

  lemma AdoptFirst(n: nat, l: Locks, k: nat, voted: Option<Node>, nodes: set<Node>) returns (v: Node, next: Locks)
    requires Reached(n, l) && k < |l.sys.appends| && l.sys.appends[k].commit == 0 && nodes != {}
    requires l.sys.appends[k].from !in nodes && NotYet(l.sys, nodes, l.sys.appends[k].from, k)
    requires AllHold(n, l.sys, nodes, l.sys.appends[k].term, voted, [])
    ensures v in nodes && Reached(n, next) && Frame(n, l.sys, next.sys, {v})
    ensures AllHold(n, next.sys, {v}, l.sys.appends[k].term, voted, l.sys.appends[k].log)
    ensures AllAcked(next.sys, {v}, l.sys.appends[k]) && NotYet(next.sys, {v}, l.sys.appends[k].from, k + 1)
    ensures AllHold(n, next.sys, nodes - {v}, l.sys.appends[k].term, voted, [])
    ensures NotYet(next.sys, nodes - {v}, l.sys.appends[k].from, k)
    ensures next.sys.appends == l.sys.appends && next.sys.tasks == l.sys.tasks && next.reading == l.reading
  {
    v :| v in nodes;
    next := AdoptOne(n, l, k, v, l.sys.appends[k].term, voted, [], 0);
  }

  lemma AdoptJoins(n: nat, s: System, next: System, s': System, v: Node, nodes: set<Node>, a: AppendRequest, k: nat,
                   voted: Option<Node>)
    requires v in nodes && Frame(n, s, next, {v}) && Frame(n, next, s', nodes - {v})
    requires AllHold(n, next, {v}, a.term, voted, a.log) && AllAcked(next, {v}, a) && NotYet(next, {v}, a.from, k + 1)
    requires AllHold(n, s', nodes - {v}, a.term, voted, a.log) && AllAcked(s', nodes - {v}, a)
    requires NotYet(s', nodes - {v}, a.from, k + 1)
    ensures Frame(n, s, s', nodes) && AllHold(n, s', nodes, a.term, voted, a.log) && AllAcked(s', nodes, a)
    ensures NotYet(s', nodes, a.from, k + 1)
  {
    FrameTwice(n, s, next, s', {v}, nodes - {v});
    HoldToo(n, next, s', {v}, nodes - {v}, a, voted);
    assert v in {v};
    assert {v} + (nodes - {v}) == nodes;
    assert Cursor(s', a.from, v) == Cursor(next, a.from, v);
  }

  // ------------------------------------------------------------------- the late round

  /** The third node is in no majority: the first two and these others are one. */
  ghost predicate Cast(n: nat, others: set<Node>) {
    && n >= 3 && 0 !in others && 1 !in others && 2 !in others
    && (forall v :: v in others ==> v < n) && |others| + 2 == Majority(n)
  }

  lemma CastOf(n: nat) returns (others: set<Node>)
    requires n >= 3
    ensures Cast(n, others)
  {
    others := Nodes(Majority(n) + 1) - Nodes(3);
    assert Nodes(3) <= Nodes(Majority(n) + 1);
    assert Nodes(Majority(n) + 1) == others + Nodes(3);
  }

  lemma StartReached(n: nat) returns (l: Locks)
    ensures Reached(n, l) && l.reading == map[] && l.sys.appends == [] && l.sys.cursors == map[]
    ensures forall v :: 0 <= v < n ==> l.sys.nodes[v] == Holder(0, None, [], 0) && l.sys.tasks[v] == Idle
  {
    var blank := Holder(0, None, [], 0);
    assert Reload(NO_FILE) == Some(blank);
    var s := System(seq(n, _ => blank), seq(n, _ => Idle), {}, {}, [], map[], {}, map[], seq(n, _ => 0), {});
    l := Locks(s, map[]);
    assert IsLockRun(n, true, [l]);
    assert EndsAt(n, [l], l);
  }

  /** Node 0 reads that it leads term 1. Then a majority, node 0 with it, elects node 1. */
  ghost predicate Deposed(n: nat, l: Locks, others: set<Node>) {
    && Cast(n, others) && Reached(n, l) && l.reading == map[0 := 1]
    && l.sys.appends == [] && l.sys.cursors == map[]
    && (forall v :: 0 <= v < n ==> l.sys.tasks[v] == Idle)
    && l.sys.nodes[1] == Head(2, 1, [], 0) && l.sys.nodes[2] == Holder(0, None, [], 0)
    && AllHold(n, l.sys, others + {0}, 2, Some(1), [])
  }

  lemma VotersHold(n: nat, s: System, nodes: set<Node>, t: nat, cand: Node)
    requires Shaped(n, s) && AllVoted(n, s, nodes, t, cand)
    ensures AllHold(n, s, nodes, t, Some(cand), [])
  {
    assert Voter(t, cand) == Holder(t, Some(cand), [], 0);
  }

  lemma OneMoreVoter(others: set<Node>, v: Node)
    requires v !in others
    ensures |others + {v}| == |others| + 1
  {
  }

  ghost predicate FirstReads(n: nat, l: Locks, others: set<Node>) {
    && Cast(n, others) && Reached(n, l) && l.reading == map[0 := 1]
    && l.sys.appends == [] && l.sys.cursors == map[]
    && (forall v :: 0 <= v < n ==> l.sys.tasks[v] == Idle)
    && l.sys.nodes[0] == Head(1, 0, [], 0) && l.sys.nodes[2] == Holder(0, None, [], 0)
    && AllVoted(n, l.sys, others + {1}, 1, 0)
  }

  lemma ElectFirst(n: nat, others: set<Node>) returns (l: Locks)
    requires Cast(n, others)
    ensures FirstReads(n, l, others)
  {
    var l1 := FirstLeads(n, others);
    l := Locks(l1.sys, l1.reading[0 := 1]);
    OneStepOn(n, l1, l, FirstLock(0));
  }

  lemma FirstLeads(n: nat, others: set<Node>) returns (l: Locks)
    requires Cast(n, others)
    ensures Reached(n, l) && l.reading == map[] && l.sys.appends == [] && l.sys.cursors == map[]
    ensures forall v :: 0 <= v < n ==> l.sys.tasks[v] == Idle
    ensures l.sys.nodes[0] == Head(1, 0, [], 0) && l.sys.nodes[2] == Holder(0, None, [], 0)
    ensures AllVoted(n, l.sys, others + {1}, 1, 0)
  {
    var l0 := StartReached(n);
    OneMoreVoter(others, 1);
    l := Elect(n, l0, 0, others + {1});
    assert 2 !in others + {1} + {0};
  }

  lemma ReadyAgain(n: nat, l: Locks, others: set<Node>)
    requires FirstReads(n, l, others)
    ensures AllReady(n, l.sys, others + {0}, 2) && l.sys.nodes[1] == Voter(1, 0)
  {
    assert 1 in others + {1};
    forall v | v in others + {0}
      ensures v < n && Empty(l.sys.nodes[v]) && l.sys.nodes[v].term < 2
    {
      if v != 0 {
        assert v in others + {1};
      }
    }
  }

  lemma Depose(n: nat, others: set<Node>) returns (l: Locks)
    requires Cast(n, others)
    ensures Deposed(n, l, others)
  {
    var l1 := ElectFirst(n, others);
    ReadyAgain(n, l1, others);
    OneMoreVoter(others, 0);
    l := Elect(n, l1, 1, others + {0});
    VotersHold(n, l.sys, others + {0}, 2, 1);
    assert 2 !in others + {0} + {1};
  }

  // The command node 1 is given.
  const LINE := "set x"

  function Told(): Entry {
    Entry(2, Trim(LINE))
  }

  lemma LineAccepted()
    ensures Accepted(LINE) && OneRead(LINE)
  {
    WordThen("set", ' ', "x");
    assert "set" + [' '] + "x" == LINE;
  }

  lemma Takes(line: string)
    requires Accepted(line)
    ensures OnCommand(Head(2, 1, [], 0), line) == Head(2, 1, [Entry(2, Trim(line))], 0)
  {
    var e := Entry(2, Trim(line));
    assert [] + [e] == [e] && [e][..0] == [];
  }

  /** Node 1's first request is still on its way to node 2 when it takes the command. */
  ghost predicate Commanded(n: nat, l: Locks, others: set<Node>) {
    && Cast(n, others) && Reached(n, l) && l.reading == map[0 := 1]
    && l.sys.appends == [AppendRequest(1, 2, [], 0)] && l.sys.cursors == map[]
    && (forall v :: 0 <= v < n ==> l.sys.tasks[v] == Idle)
    && l.sys.nodes[1] == Head(2, 1, [Told()], 0) && l.sys.nodes[2] == Holder(0, None, [], 0)
    && AllHold(n, l.sys, others + {0}, 2, Some(1), [])
  }

  lemma CommandFirst(n: nat, others: set<Node>) returns (l: Locks)
    requires Cast(n, others)
    ensures Commanded(n, l, others)
  {
    var l0 := Depose(n, others);
    var l1 := SilentRound(n, l0, 1, 2, [], 0);
    LineAccepted();
    l := GiveCommand(n, l1, LINE);
  }

  lemma GiveCommand(n: nat, l: Locks, line: string) returns (l': Locks)
    requires Reached(n, l) && 1 < n && l.sys.nodes[1] == Head(2, 1, [], 0) && Accepted(line) && OneRead(line)
    ensures Reached(n, l') && l'.sys.nodes == l.sys.nodes[1 := Head(2, 1, [Entry(2, Trim(line))], 0)]
    ensures l'.sys.appends == l.sys.appends && l'.sys.cursors == l.sys.cursors
    ensures l'.sys.tasks == l.sys.tasks && l'.reading == l.reading
  {
    Takes(line);
    l' := OneMore(n, l, CommandStep(l.sys, 1, line), Command(1, line));
  }

  /** The command is committed, and node 0 knows it. */
  ghost predicate CommittedThere(n: nat, l: Locks) {
    && n >= 3 && Reached(n, l) && l.reading == map[0 := 1] && l.sys.tasks[0] == Idle
    && |l.sys.appends| == 3 && l.sys.appends[0] == AppendRequest(1, 2, [], 0)
    && Cursor(l.sys, 1, 2) == 0 && Cursor(l.sys, 0, 2) == 0
    && l.sys.nodes[0] == Holder(2, Some(1), [Told()], 1) && l.sys.nodes[2] == Holder(0, None, [], 0)
  }

  lemma Agreed(n: nat, others: set<Node>, acked: map<Node, (nat, nat)>)
    requires Cast(n, others) && acked == map v | v in others + {0} :: (2, 1)
    ensures IsAgreed(n, 1, 2, 1, acked, 1)
  {
    OneMoreVoter(others, 0);
    OneMoreVoter(others + {0}, 1);
    assert Holders(1, 2, 1, acked, 0) == others + {0} + {1};
    assert Holders(1, 2, 1, acked, 1) == others + {0} + {1};
    assert Holders(1, 2, 1, acked, 2) == {};
  }

  /** The request with the command reaches the majority. */
  ghost predicate Spread(n: nat, l: Locks, others: set<Node>) {
    && Cast(n, others) && Reached(n, l) && l.reading == map[0 := 1]
    && l.sys.appends == [AppendRequest(1, 2, [], 0), AppendRequest(1, 2, [Told()], 0)]
    && NotYet(l.sys, others + {0}, 1, 2) && Cursor(l.sys, 1, 2) == 0 && Cursor(l.sys, 0, 2) == 0
    && (forall v :: 0 <= v < n && v != 1 ==> l.sys.tasks[v] == Idle) && l.sys.tasks[1] == Beating(2, 1)
    && l.sys.nodes[1] == Head(2, 1, [Told()], 0) && l.sys.nodes[2] == Holder(0, None, [], 0)
    && AllHold(n, l.sys, others + {0}, 2, Some(1), [Told()])
    && AllAcked(l.sys, others + {0}, AppendRequest(1, 2, [Told()], 0))
  }

  lemma SpreadCommand(n: nat, others: set<Node>) returns (l: Locks)
    requires Cast(n, others)
    ensures Spread(n, l, others)
  {
    var l0 := CommandFirst(n, others);
    var l1 := Send(n, l0, 1);
    assert l1.sys.appends[1] == AppendRequest(1, 2, [Told()], 0);
    l := AdoptAll(n, l1, 1, Some(1), others + {0});
  }

  /** Node 1's round with the command has ended. */
  ghost predicate Settled(n: nat, l: Locks) {
    && n >= 3 && Reached(n, l) && l.reading == map[0 := 1] && l.sys.tasks[0] == Idle && l.sys.tasks[1] == Idle
    && |l.sys.appends| == 2 && l.sys.appends[0] == AppendRequest(1, 2, [], 0)
    && Cursor(l.sys, 1, 0) <= 2 && Cursor(l.sys, 1, 2) == 0 && Cursor(l.sys, 0, 2) == 0
    && l.sys.nodes[1] == Head(2, 1, [Told()], 1)
    && l.sys.nodes[0] == Holder(2, Some(1), [Told()], 0) && l.sys.nodes[2] == Holder(0, None, [], 0)
  }

  lemma SettleIt(n: nat, others: set<Node>) returns (l: Locks)
    requires Cast(n, others)
    ensures Settled(n, l)
  {
    var l0 := SpreadCommand(n, others);
    var acked: map<Node, (nat, nat)> := map v | v in others + {0} :: (2, 1);
    Agreed(n, others, acked);
    SpreadIsAcked(n, l0, others, acked);
    l := Settle(n, l0, 1, 2, [Told()], 0, 1, acked);
  }

  lemma SpreadIsAcked(n: nat, l: Locks, others: set<Node>, acked: map<Node, (nat, nat)>)
    requires Spread(n, l, others) && acked == map v | v in others + {0} :: (2, 1)
    ensures AcksSent(l.sys, 1, acked)
    ensures l.sys.nodes[0] == Holder(2, Some(1), [Told()], 0) && Cursor(l.sys, 1, 0) <= 2
  {
    assert 0 in others + {0};
  }

  lemma CommitIt(n: nat, others: set<Node>) returns (l: Locks)
    requires Cast(n, others)
    ensures CommittedThere(n, l)
  {
    var l1 := SettleIt(n, others);
    var l2 := SilentRound(n, l1, 1, 2, [Told()], 1);
    l := AdoptOne(n, l2, 2, 0, 2, Some(1), [Told()], 0);
  }

  // ------------------------------------------------------------- and what it leaves

  /** The second lock of node 0: the log of term 2, sent to node 2 under term 1. */
  lemma SendLate(n: nat, others: set<Node>) returns (l: Locks)
    requires Cast(n, others)
    ensures Reached(n, l) && |l.sys.appends| == 4 && l.sys.appends[0] == AppendRequest(1, 2, [], 0)
    ensures l.sys.appends[3] == AppendRequest(0, 1, [Told()], 1)
    ensures Cursor(l.sys, 1, 2) == 0 && Cursor(l.sys, 0, 2) == 0 && l.sys.nodes[2] == Holder(0, None, [], 0)
  {
    var l0 := CommitIt(n, others);
    l := Locks(SendUnder(l0.sys, 0, 1), l0.reading - {0});
    OneStepOn(n, l0, l, SecondLock(0));
  }

  /** A shorter log of a later term: the commit index stays. */
  lemma ShorterLog(voted: Option<Node>)
    ensures OnAppend(Holder(1, voted, [Told()], 1), 2, 0, []).Some?
    ensures OnAppend(Holder(1, voted, [Told()], 1), 2, 0, []).value.0.disk == Durable(2, None, 1, [])
  {
  }

  /** Node 2 ends with a commit index past its log on disk, and can never start from it. */
  lemma LateRunStrands(n: nat) returns (l: Locks)
    requires n >= 3
    ensures Reached(n, l) && l.sys.nodes[2].disk == Durable(2, None, 1, []) && Reload(l.sys.nodes[2].disk) == None
  {
    var others := CastOf(n);
    var l0 := SendLate(n, others);
    var l1 := AdoptOne(n, l0, 3, 2, 0, None, [], 0);
    ShorterLog(None);
    l := OneMore(n, l1, AdoptStep(l1.sys, 2, 0).value, Adopt(2, 0));
    ApplyFailsExactly(NodeState(2, Follower, None, [], 1, 0, map[], Durable(2, None, 1, [])));
  }

  /**
    With three nodes or more, every node can start again from its file in every run exactly
    when no round is late.
    */
  lemma RestartableExactly(n: nat, late: bool)
    requires n >= 3
    ensures Restartable(n, late) <==> !late
  {
    if late {
      var l := LateRunStrands(n);
      var run: seq<Locks> :| EndsAt(n, run, l);
      assert Reload(run[|run| - 1].sys.nodes[2].disk).None?;
    } else {
      RestartableWithoutLate(n);
    }
  }
}
