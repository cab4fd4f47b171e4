/**
  Building runs: from a state to another by steps, and a whole round of one view, in which
  a group of correct members and all faulty ones vote for one value.
  */
module PbftScripts {
  import opened Options
  import opened Quorums
  import opened PbftReplica
  import opened PbftSystem

  // ---------------------------------------------------------------- reachability

  ghost predicate StepAt(c: Config, path: seq<System>, k: nat)
    requires c.n >= 1
  {
    k + 1 < |path| ==> |path[k].replicas| == c.n && Next(c, path[k], path[k + 1])
  }

  ghost predicate IsPath(c: Config, path: seq<System>, s: System, s': System)
    requires c.n >= 1
  {
    && |path| > 0 && path[0] == s && path[|path| - 1] == s'
    && (forall k :: 0 <= k < |path| ==> |path[k].replicas| == c.n)
    && forall k: nat :: StepAt(c, path, k)
  }

  ghost predicate Reach(c: Config, s: System, s': System) {
    c.n >= 1 && exists path :: IsPath(c, path, s, s')
  }

  lemma ReachSelf(c: Config, s: System)
    requires c.n >= 1 && |s.replicas| == c.n
    ensures Reach(c, s, s)
  {
    assert IsPath(c, [s], s, s);
  }

  /** One more step at the end. */
  lemma ReachStep(c: Config, s: System, s': System, s'': System, step: Step)
    requires Reach(c, s, s') && |s'.replicas| == c.n && NextStep(c, s', s'', step)
    ensures Reach(c, s, s'')
  {
    var path :| IsPath(c, path, s, s');
    var longer := path + [s''];
    forall k: nat
      ensures StepAt(c, longer, k)
    {
      assert StepAt(c, path, k);
      if k == |path| - 1 {
        assert Next(c, s', s'');
      }
    }
    assert IsPath(c, longer, s, s'');
  }

  function After(s: System, p: Node, r: ReplicaState, out: seq<Message>): System
    requires p < |s.replicas|
  {
    System(s.replicas[p := r], s.signed + Sigs(out), s.half)
  }

  lemma ReachDeliver(c: Config, s: System, s': System, p: Node, msg: Message, r: ReplicaState, out: seq<Message>)
    requires Reach(c, s, s') && |s'.replicas| == c.n && c.Correct(p)
    requires Unforged(c, s'.signed, msg) && Handles(c, p, s'.replicas[p], msg, r, out)
    ensures Reach(c, s, After(s', p, r, out))
  {
    ReachStep(c, s, s', After(s', p, r, out), Deliver(p, msg, out));
  }

  // ---------------------------------------------------------------- from the start

  function StartOf(c: Config): System {
    System(seq(c.n, i => Reload(NO_FILE)), {}, {})
  }

  lemma PathIsRun(c: Config, path: seq<System>, s: System)
    requires c.n >= 1 && IsPath(c, path, StartOf(c), s)
    ensures IsRun(c, path)
  {
    forall i | 0 <= i < |path| - 1
      ensures Next(c, path[i], path[i + 1])
    {
      assert StepAt(c, path, i);
    }
  }

  lemma {:induction false} HalfGrows(c: Config, path: seq<System>, s: System, s': System, k: nat)
    requires c.n >= 1 && IsPath(c, path, s, s') && k < |path|
    ensures path[k].half <= s'.half
    decreases |path| - k
  {
    if k < |path| - 1 {
      HalfGrows(c, path, s, s', k + 1);
      assert StepAt(c, path, k);
    }
  }

  lemma SmallRemainder(view: nat, n: nat)
    requires view < n
    ensures view % n == view
  {
  }

  // ---------------------------------------------------------------- one round

  /** A vote quorum, with not one vote more than it takes. */
  ghost predicate Exact(c: Config, voters: set<Node>) {
    c.n >= 1 && voters <= Nodes(c.n) && 2 * |voters| > c.n + c.F() >= 2 * |voters| - 2
  }

  lemma QuorumExactly(c: Config, voters: set<Node>, some: set<Node>)
    requires Exact(c, voters) && some <= voters
    ensures c.VoteQuorum(|some|) <==> some == voters
  {
    if some != voters {
      var q :| q in voters && q !in some;
      SubsetSize(some + {q}, voters);
    }
  }

  /** What a round leaves alone: members outside the group, decisions, views; signatures only grow. */
  ghost predicate Within(c: Config, g: set<Node>, s: System, s': System) {
    && |s.replicas| == c.n && |s'.replicas| == c.n && s.signed <= s'.signed && s'.half == s.half
    && forall p: Node :: p < c.n && p !in g ==> s'.replicas[p] == s.replicas[p]
  }

  ghost predicate SameDecisions(c: Config, s: System, s': System)
    requires |s.replicas| == c.n && |s'.replicas| == c.n
  {
    forall p: Node :: p < c.n ==> s'.replicas[p].decided == s.replicas[p].decided
  }

  ghost predicate InView(r: ReplicaState, v: nat) {
    r.view == v && r.highestVcSent <= v
  }

  /** Ready for a PREPREPARE. */
  ghost predicate Waiting(r: ReplicaState, v: nat) {
    && InView(r, v) && !r.preprepared && r.expected.None? && !r.sentcommit
    && r.prepares == map[] && r.commits == map[]
  }

  ghost predicate AllWaiting(c: Config, s: System, nodes: set<Node>, v: nat)
    requires |s.replicas| == c.n
  {
    forall p :: p in nodes ==> c.Correct(p) && Waiting(s.replicas[p], v)
  }

  lemma StartWaits(c: Config, nodes: set<Node>)
    requires forall p :: p in nodes ==> c.Correct(p)
    ensures AllWaiting(c, StartOf(c), nodes, 0)
  {
  }

  /** Has voted, and counted no vote. */
  ghost predicate Voted(r: ReplicaState, v: nat) {
    InView(r, v) && !r.sentcommit && r.prepares == map[] && r.commits == map[]
  }

  ghost predicate Counting(r: ReplicaState, v: nat) {
    InView(r, v) && r.commits == map[]
  }

  ghost predicate AllPrepared(c: Config, signed: set<Signature>, nodes: set<Node>, v: nat, m: Value) {
    forall p :: p in nodes ==> SentPrepare(signed, p, v, m)
  }

  lemma PrepareOne(c: Config, s0: System, s: System, p: Node, v: nat, m: Value) returns (s': System)
    requires Reach(c, s0, s) && c.Correct(p) && |s.replicas| == c.n && Waiting(s.replicas[p], v)
    requires Known(c, s.signed, Signature(c.LeaderOf(v), PrePrepareSt(v, m)))
    ensures Reach(c, s0, s') && Within(c, {p}, s, s') && SameDecisions(c, s, s') && Voted(s'.replicas[p], v)
    ensures SentPrepare(s'.signed, p, v, m)
  {
    var msg := Seal(PrePrepare(c.LeaderOf(v), v, m, Garbage));
    var (r, out) := OnPrePrepare(c, p, s.replicas[p], c.LeaderOf(v), v, m);
    s' := After(s, p, r, out);
    ReachDeliver(c, s0, s, p, msg, r, out);
    assert out[0] in out;
    assert Signature(p, PrepareSt(v, m)) in Sigs(out);
  }

  /** Every member of the group votes. */
  lemma PrepareAll(c: Config, s0: System, s: System, g: set<Node>, v: nat, m: Value) returns (s': System)
    requires Reach(c, s0, s) && |s.replicas| == c.n
    requires AllWaiting(c, s, g, v) && Known(c, s.signed, Signature(c.LeaderOf(v), PrePrepareSt(v, m)))
    ensures Reach(c, s0, s') && Within(c, g, s, s') && SameDecisions(c, s, s') && AllVoted(c, s', g, v)
    ensures AllPrepared(c, s'.signed, g, v, m)
    decreases |g|
  {
    s' := s;
    if g != {} {
      var p :| p in g;
      var next := PrepareOne(c, s0, s, p, v, m);
      s' := PrepareAll(c, s0, next, g - {p}, v, m);
    }
  }

  // A list of a set's members, each once.
  lemma Listing(votes: map<Node, (Value, Signature)>, nodes: set<Node>) returns (sigs: seq<(Node, Signature)>)
    requires nodes <= votes.Keys
    ensures Lists(votes, nodes, sigs)
    decreases |nodes|
  {
    if nodes == {} {
      sigs := [];
    } else {
      var q :| q in nodes;
      sigs := Listing(votes, nodes - {q});
      ListsOneMore(votes, nodes - {q}, sigs, q);
      assert nodes - {q} + {q} == nodes;
      sigs := sigs + [(q, votes[q].1)];
    }
  }

  function Ballot(q: Node, v: nat, m: Value): (Value, Signature) {
    (m, Signature(q, PrepareSt(v, m)))
  }

  /** Has counted the PREPAREs of `done`, all for m. */
  ghost predicate Counted(r: ReplicaState, v: nat, m: Value, done: set<Node>) {
    && Counting(r, v) && !r.sentcommit
    && r.prepares.Keys == done && forall q :: q in done ==> r.prepares[q] == Ballot(q, v, m)
  }

  /** The state and messages after one more PREPARE: the last of the quorum brings the COMMIT. */
  lemma OneMore(c: Config, r: ReplicaState, p: Node, q: Node, v: nat, m: Value, done: set<Node>, last: bool)
    returns (r': ReplicaState, out: seq<Message>)
    requires c.n >= 1 && c.VoteQuorum(|done + {q}|) == last && q !in done && Counted(r, v, m, done)
    ensures OnPrepare(c, p, r, q, v, m, Ballot(q, v, m).1, r', out) && Counting(r', v) && r'.decided == r.decided
    ensures if last then out == [Seal(Commit(p, v, m, Garbage))]
            else out == [] && Counted(r', v, m, done + {q})
  {
    var prepares := r.prepares[q := Ballot(q, v, m)];
    assert prepares == OrInsert(r.prepares, q, Ballot(q, v, m));
    assert VotersFor(prepares, m) == done + {q};
    r' := r.(prepares := prepares);
    out := [];
    if last {
      var sigs := Listing(prepares, done + {q});
      r' := Persist(r'.(sentcommit := true, prepared := Some(Cert(v, m, sigs))));
      out := [Seal(Commit(p, v, m, Garbage))];
    }
  }

  lemma SealedOut(c: Config, s: System, p: Node, r: ReplicaState, msg: Message)
    requires p < |s.replicas| && |s.replicas| == c.n
    ensures Seal(msg).sig in After(s, p, r, [Seal(msg)]).signed && Within(c, {p}, s, After(s, p, r, [Seal(msg)]))
  {
    assert [Seal(msg)][0] in [Seal(msg)];
  }

  lemma CountOne(c: Config, s0: System, s: System, voters: set<Node>, p: Node, q: Node, v: nat, m: Value,
                 done: set<Node>)
    returns (s': System)
    requires Reach(c, s0, s) && |s.replicas| == c.n && Exact(c, voters) && c.Correct(p)
    requires done + {q} <= voters && q !in done && Counted(s.replicas[p], v, m, done)
    requires Known(c, s.signed, Signature(q, PrepareSt(v, m)))
    ensures Reach(c, s0, s') && Within(c, {p}, s, s') && SameDecisions(c, s, s') && Counting(s'.replicas[p], v)
    ensures if done + {q} == voters then SentCommit(s'.signed, p, v, m)
            else Counted(s'.replicas[p], v, m, done + {q})
  {
    QuorumExactly(c, voters, done + {q});
    var r, out := OneMore(c, s.replicas[p], p, q, v, m, done, done + {q} == voters);
    s' := After(s, p, r, out);
    ReachDeliver(c, s0, s, p, Seal(Prepare(q, v, m, Garbage)), r, out);
    if done + {q} == voters {
      SealedOut(c, s, p, r, Commit(p, v, m, Garbage));
    }
  }

  ghost predicate AllKnown(c: Config, signed: set<Signature>, nodes: set<Node>, st: Statement) {
    forall q :: q in nodes ==> Known(c, signed, Signature(q, st))
  }

  lemma CountRest(c: Config, s0: System, s: System, voters: set<Node>, p: Node, v: nat, m: Value, done: set<Node>)
    returns (s': System)
    requires Reach(c, s0, s) && |s.replicas| == c.n && Exact(c, voters) && c.Correct(p)
    requires done < voters && Counted(s.replicas[p], v, m, done)
    requires AllKnown(c, s.signed, voters, PrepareSt(v, m))
    ensures Reach(c, s0, s') && Within(c, {p}, s, s') && SameDecisions(c, s, s') && Counting(s'.replicas[p], v)
    ensures SentCommit(s'.signed, p, v, m)
    decreases |voters - done|
  {
    var q :| q in voters && q !in done;
    s' := CountOne(c, s0, s, voters, p, q, v, m, done);
    if done + {q} != voters {
      assert voters - (done + {q}) == (voters - done) - {q};
      s' := CountRest(c, s0, s', voters, p, v, m, done + {q});
    }
  }

  ghost predicate AllVoted(c: Config, s: System, nodes: set<Node>, v: nat)
    requires |s.replicas| == c.n
  {
    forall p :: p in nodes ==> c.Correct(p) && Voted(s.replicas[p], v)
  }

  ghost predicate AllCommitted(c: Config, s: System, nodes: set<Node>, v: nat, m: Value)
    requires |s.replicas| == c.n
  {
    forall p :: p in nodes ==> p < c.n && Counting(s.replicas[p], v) && SentCommit(s.signed, p, v, m)
  }

  lemma CommitFirst(c: Config, s0: System, s: System, voters: set<Node>, p: Node, v: nat, m: Value) returns (s': System)
    requires Reach(c, s0, s) && |s.replicas| == c.n && Exact(c, voters) && c.Correct(p) && voters != {}
    requires Voted(s.replicas[p], v)
    requires AllKnown(c, s.signed, voters, PrepareSt(v, m))
    ensures Reach(c, s0, s') && Within(c, {p}, s, s') && SameDecisions(c, s, s') && AllCommitted(c, s', {p}, v, m)
  {
    assert Counted(s.replicas[p], v, m, {});
    s' := CountRest(c, s0, s, voters, p, v, m, {});
  }

  lemma CommitJoins(c: Config, s: System, next: System, s': System, p: Node, rest: set<Node>, v: nat, m: Value)
    requires Within(c, {p}, s, next) && Within(c, rest, next, s') && p !in rest
    requires AllCommitted(c, next, {p}, v, m) && AllCommitted(c, s', rest, v, m)
    ensures Within(c, rest + {p}, s, s') && AllCommitted(c, s', rest + {p}, v, m)
  {
  }

  /** Every member of the group counts the votes of the group and of all faulty members, and commits. */
  lemma CommitAll(c: Config, s0: System, s: System, voters: set<Node>, rest: set<Node>, v: nat, m: Value)
    returns (s': System)
    requires Reach(c, s0, s) && |s.replicas| == c.n && Exact(c, voters) && AllVoted(c, s, rest, v)
    requires AllKnown(c, s.signed, voters, PrepareSt(v, m))
    ensures Reach(c, s0, s') && Within(c, rest, s, s') && SameDecisions(c, s, s') && AllCommitted(c, s', rest, v, m)
    decreases |rest|
  {
    s' := s;
    if rest != {} {
      var p :| p in rest;
      var next := CommitFirst(c, s0, s, voters, p, v, m);
      s' := CommitAll(c, s0, next, voters, rest - {p}, v, m);
      CommitJoins(c, s, next, s', p, rest - {p}, v, m);
      assert rest - {p} + {p} == rest;
    }
  }

  /** d has counted the COMMITs of `done`, all for m. */
  ghost predicate Tallied(r: ReplicaState, v: nat, m: Value, done: set<Node>) {
    && InView(r, v) && r.decided.None?
    && r.commits.Keys == done && forall q :: q in done ==> r.commits[q] == m
  }

  lemma TallyOne(c: Config, r: ReplicaState, q: Node, v: nat, m: Value, done: set<Node>, last: bool)
    returns (r': ReplicaState)
    requires c.n >= 1 && c.VoteQuorum(|done + {q}|) == last && q !in done && Tallied(r, v, m, done)
    ensures r' == OnCommit(c, r, q, v, m)
    ensures if last then r'.decided == Some(m) else Tallied(r', v, m, done + {q})
  {
    assert OrInsert(r.commits, q, m) == r.commits[q := m];
    assert CommittersFor(r.commits[q := m], m) == done + {q};
    r' := OnCommit(c, r, q, v, m);
  }

  lemma DecideOne(c: Config, s0: System, s: System, voters: set<Node>, d: Node, q: Node, v: nat, m: Value,
                  done: set<Node>)
    returns (s': System)
    requires Reach(c, s0, s) && |s.replicas| == c.n && Exact(c, voters) && c.Correct(d)
    requires done + {q} <= voters && q !in done && Tallied(s.replicas[d], v, m, done)
    requires Known(c, s.signed, Signature(q, CommitSt(v, m)))
    ensures Reach(c, s0, s') && Within(c, {d}, s, s')
    ensures InView(s'.replicas[d], v)
    ensures if done + {q} == voters then s'.replicas[d].decided == Some(m)
            else Tallied(s'.replicas[d], v, m, done + {q})
  {
    QuorumExactly(c, voters, done + {q});
    var r := TallyOne(c, s.replicas[d], q, v, m, done, done + {q} == voters);
    s' := After(s, d, r, []);
    ReachDeliver(c, s0, s, d, Seal(Commit(q, v, m, Garbage)), r, []);
  }

  /** And decides once they are a quorum. */
  lemma DecideRest(c: Config, s0: System, s: System, voters: set<Node>, d: Node, v: nat, m: Value, done: set<Node>)
    returns (s': System)
    requires Reach(c, s0, s) && |s.replicas| == c.n && Exact(c, voters) && c.Correct(d) && done < voters
    requires Tallied(s.replicas[d], v, m, done) && AllKnown(c, s.signed, voters, CommitSt(v, m))
    ensures Reach(c, s0, s') && Within(c, {d}, s, s')
    ensures s'.replicas[d].decided == Some(m) && InView(s'.replicas[d], v)
    decreases |voters - done|
  {
    var q :| q in voters && q !in done;
    s' := DecideOne(c, s0, s, voters, d, q, v, m, done);
    if done + {q} != voters {
      assert voters - (done + {q}) == (voters - done) - {q};
      s' := DecideRest(c, s0, s', voters, d, v, m, done + {q});
    }
  }

  lemma ProposeOne(c: Config, s0: System, s: System, leader: Node, v: nat, m: Value) returns (s': System)
    requires Reach(c, s0, s) && |s.replicas| == c.n && c.Correct(leader) && c.LeaderOf(v) == leader
    requires s.replicas[leader].view == v
    ensures Reach(c, s0, s') && s'.replicas == s.replicas && s.signed <= s'.signed && s'.half == s.half
    ensures Signature(leader, PrePrepareSt(v, m)) in s'.signed
  {
    s' := After(s, leader, s.replicas[leader], OnPropose(c, leader, s.replicas[leader], m));
    SealedOut(c, s, leader, s.replicas[leader], PrePrepare(leader, v, m, Garbage));
    ReachStep(c, s0, s, s', Propose(leader, m));
    assert s'.replicas == s.replicas;
  }

  /** The group's votes and commits are out, and only d's decision is new. */
  ghost predicate Ruled(c: Config, s: System, s': System, g: set<Node>, d: Node, v: nat, m: Value)
    requires |s.replicas| == c.n && |s'.replicas| == c.n
  {
    && (forall p :: p in g ==> SentPrepare(s'.signed, p, v, m) && SentCommit(s'.signed, p, v, m))
    && (forall p :: p in g ==> p < c.n && InView(s'.replicas[p], v))
    && (forall p: Node :: p < c.n && p != d ==> s'.replicas[p].decided == s.replicas[p].decided)
    && d < c.n && s'.replicas[d].decided == Some(m)
  }

  /** A round of view v: the group votes for m, commits to m, and its member d decides m. */
  lemma Round(c: Config, s0: System, s: System, g: set<Node>, d: Node, v: nat, m: Value) returns (s': System)
    requires Reach(c, s0, s) && |s.replicas| == c.n && Exact(c, g + c.faulty) && d in g && c.LeaderOf(v) in g
    requires AllWaiting(c, s, g, v) && s.replicas[d].decided.None?
    ensures Reach(c, s0, s') && Within(c, g, s, s') && Ruled(c, s, s', g, d, v, m)
  {
    var leader, voters := c.LeaderOf(v), g + c.faulty;
    var s1 := ProposeOne(c, s0, s, leader, v, m);
    var s2 := PrepareAll(c, s0, s1, g, v, m);
    assert AllKnown(c, s2.signed, voters, PrepareSt(v, m));
    var s3 := CommitAll(c, s0, s2, voters, g, v, m);
    assert AllKnown(c, s3.signed, voters, CommitSt(v, m));
    s' := DecideRest(c, s0, s3, voters, d, v, m, {});
    RoundRules(c, s, s2, s3, s', g, d, v, m);
  }

  lemma RoundRules(c: Config, s: System, s2: System, s3: System, s': System, g: set<Node>, d: Node, v: nat, m: Value)
    requires Within(c, g, s, s2) && Within(c, g, s2, s3) && Within(c, {d}, s3, s') && d in g
    requires AllCommitted(c, s3, g, v, m) && AllPrepared(c, s2.signed, g, v, m)
    requires SameDecisions(c, s, s2) && SameDecisions(c, s2, s3)
    requires s'.replicas[d].decided == Some(m) && InView(s'.replicas[d], v)
    ensures Ruled(c, s, s', g, d, v, m)
  {
    assert d < c.n;
    forall p | p in g
      ensures SentPrepare(s'.signed, p, v, m) && SentCommit(s'.signed, p, v, m) && InView(s'.replicas[p], v)
    {
      assert SentPrepare(s2.signed, p, v, m) && SentCommit(s3.signed, p, v, m) && Counting(s3.replicas[p], v);
    }
  }
}
