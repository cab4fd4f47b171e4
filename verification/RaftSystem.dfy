/**
  The Raft cluster as a state machine: nodes, the election or heartbeat round each
  node's timer thread is in, and the requests and replies in flight.

  A vote request, a vote and an acknowledgment may be lost, and is used only by the
  round it belongs to. The append requests from one node to another may be lost, but
  those that are handled are handled in the order they were sent: the sender waits
  for each reply before the next, and the listener serves connections in turn.
  */
module RaftSystem {
  import opened Options
  import opened Quorums
  import opened Text
  import opened RaftNode

  datatype Task = Idle | Electing(term: nat) | Beating(term: nat, selfLen: nat)

  datatype VoteRequest = VoteRequest(cand: Node, term: nat, lastIndex: nat, lastTerm: nat)

  // The reply of `voter` in the round `round` of `cand`. A candidate's own vote is recorded like any other.
  datatype Vote = Vote(voter: Node, cand: Node, round: nat, term: nat, granted: bool)

  datatype AppendRequest = AppendRequest(from: Node, term: nat, log: seq<Entry>, commit: nat)

  // The reply of `from` to an append of term `round` by `leader`. The leader's own length is recorded like any other.
  datatype Ack = Ack(from: Node, leader: Node, round: nat, term: nat, len: nat)

  // History, read by no step: who led a term, how long its log was when elected, and its log so far.
  datatype Reign = Reign(leader: Node, base: nat, log: seq<Entry>)

  datatype System = System(
    nodes: seq<NodeState>,
    tasks: seq<Task>,
    requests: set<VoteRequest>,
    votes: set<Vote>,
    appends: seq<AppendRequest>,             // every append request sent, in order
    cursors: map<(Node, Node), nat>,         // (from, to): requests before this one are handled or lost
    acks: set<Ack>,
    reigns: map<nat, Reign>,                 // history, by term
    src: seq<nat>,                           // history: the term whose leader's log each node holds
    points: set<(nat, nat)>)                 // history: (term, length) each time a leader advanced its commit index

  datatype Step =
    | Campaign(i: Node)
    | VoteOn(i: Node, req: VoteRequest)
    | EndCampaign(i: Node, replies: map<Node, (nat, bool)>, after: NodeState)
    | Beat(i: Node)
    | Adopt(i: Node, k: nat)
    | EndBeat(i: Node, acked: map<Node, (nat, nat)>, after: NodeState)
    | Command(i: Node, line: string)
    | Get(i: Node)
    | Restart(i: Node)

  function Cursor(s: System, from: Node, to: Node): nat {
    if (from, to) in s.cursors then s.cursors[(from, to)] else 0
  }

  ghost predicate Shaped(n: nat, s: System) {
    |s.nodes| == n && |s.tasks| == n && |s.src| == n
  }

  ghost predicate Init(n: nat, s: System) {
    && Shaped(n, s)
    && (forall i :: 0 <= i < n ==> Some(s.nodes[i]) == Reload(NO_FILE) && s.tasks[i] == Idle && s.src[i] == 0)
    && s.requests == {} && s.votes == {} && s.appends == [] && s.cursors == map[] && s.acks == {}
    && s.reigns == map[] && s.points == {}
  }

  // ---------------------------------------------------------------- transitions

  function CampaignStep(s: System, i: Node): System
    requires i < |s.nodes| == |s.tasks|
  {
    var node := StartCampaign(i, s.nodes[i]);
    s.(nodes := s.nodes[i := node], tasks := s.tasks[i := Electing(node.term)],
       requests := s.requests + {VoteRequest(i, node.term, |node.log|, LastTerm(node.log))},
       votes := s.votes + {Vote(i, i, node.term, node.term, true)})
  }

  function VoteOnStep(s: System, i: Node, req: VoteRequest): System
    requires i < |s.nodes|
  {
    var (node, term, granted) := OnRequestVote(s.nodes[i], req.term, req.cand, req.lastIndex, req.lastTerm);
    s.(nodes := s.nodes[i := node], votes := s.votes + {Vote(i, req.cand, req.term, term, granted)})
  }

  ghost predicate VoteRepliesSent(s: System, i: Node, replies: map<Node, (nat, bool)>)
    requires i < |s.tasks| && s.tasks[i].Electing?
  {
    forall p :: p in replies ==> p != i && Vote(p, i, s.tasks[i].term, replies[p].0, replies[p].1) in s.votes
  }

  function EndCampaignStep(s: System, i: Node, after: NodeState): System
    requires i < |s.nodes| == |s.tasks| == |s.src|
  {
    var ended := s.(nodes := s.nodes[i := after], tasks := s.tasks[i := Idle]);
    if after.role == Leader && s.nodes[i].role != Leader
    then ended.(reigns := s.reigns[after.term := Reign(i, |after.log|, after.log)], src := s.src[i := after.term])
    else ended
  }

  function BeatStep(s: System, i: Node): System
    requires i < |s.nodes| == |s.tasks|
  {
    var node := s.nodes[i];
    s.(tasks := s.tasks[i := Beating(node.term, |node.log|)],
       appends := s.appends + [AppendRequest(i, node.term, node.log, node.commitIndex)],
       acks := s.acks + {Ack(i, i, node.term, node.term, |node.log|)})
  }

  function AdoptStep(s: System, i: Node, k: nat): Option<System>
    requires i < |s.nodes| == |s.src| && k < |s.appends|
  {
    var req := s.appends[k];
    match OnAppend(s.nodes[i], req.term, req.commit, req.log)
    case None => None
    case Some((node, term, len)) =>
      Some(s.(nodes := s.nodes[i := node], cursors := s.cursors[(req.from, i) := k + 1],
              acks := s.acks + {Ack(i, req.from, req.term, term, len)},
              src := if req.term < s.nodes[i].term then s.src else s.src[i := req.term]))
  }

  ghost predicate AcksSent(s: System, i: Node, replies: map<Node, (nat, nat)>)
    requires i < |s.tasks| && s.tasks[i].Beating?
  {
    forall p :: p in replies ==> p != i && Ack(p, i, s.tasks[i].term, replies[p].0, replies[p].1) in s.acks
  }

  function EndBeatStep(s: System, i: Node, after: NodeState): System
    requires i < |s.nodes| == |s.tasks|
  {
    s.(nodes := s.nodes[i := after], tasks := s.tasks[i := Idle],
       points := s.points + if after.commitIndex != s.nodes[i].commitIndex then {(after.term, after.commitIndex)}
                            else {})
  }

  function CommandStep(s: System, i: Node, line: string): System
    requires i < |s.nodes|
  {
    var node := OnCommand(s.nodes[i], line);
    s.(nodes := s.nodes[i := node],
       reigns := if node.role == Leader && node.term in s.reigns
                 then s.reigns[node.term := s.reigns[node.term].(log := node.log)] else s.reigns)
  }

  ghost predicate NextStep(n: nat, s: System, s': System, step: Step)
    requires Shaped(n, s)
  {
    && step.i < n
    && var i := step.i;
       match step
       case Campaign(_) => s.tasks[i].Idle? && s.nodes[i].role != Leader && s' == CampaignStep(s, i)
       case VoteOn(_, req) => req in s.requests && req.cand != i && s' == VoteOnStep(s, i, req)
       case EndCampaign(_, replies, after) =>
         && s.tasks[i].Electing? && VoteRepliesSent(s, i, replies)
         && FinishCampaign(n, s.nodes[i], s.tasks[i].term, replies, after)
         && s' == EndCampaignStep(s, i, after)
       case Beat(_) => s.tasks[i].Idle? && s.nodes[i].role == Leader && s' == BeatStep(s, i)
       case Adopt(_, k) =>
         && k < |s.appends| && s.appends[k].from != i && Cursor(s, s.appends[k].from, i) <= k
         && Some(s') == AdoptStep(s, i, k)
       case EndBeat(_, acked, after) =>
         && s.tasks[i].Beating? && AcksSent(s, i, acked)
         && FinishBeat(n, i, s.nodes[i], s.tasks[i].term, s.tasks[i].selfLen, acked, Some(after))
         && s' == EndBeatStep(s, i, after)
       case Command(_, line) => OneRead(line) && s' == CommandStep(s, i, line)
       case Get(_) => OnGet(s.nodes[i]).Some? && s' == s.(nodes := s.nodes[i := OnGet(s.nodes[i]).value])
       case Restart(_) =>
         && Reload(s.nodes[i].disk).Some?
         && s' == s.(nodes := s.nodes[i := Reload(s.nodes[i].disk).value], tasks := s.tasks[i := Idle])
  }

  ghost predicate Next(n: nat, s: System, s': System)
    requires Shaped(n, s)
  {
    exists step :: NextStep(n, s, s', step)
  }

  ghost predicate IsRun(n: nat, run: seq<System>) {
    && |run| > 0
    && Init(n, run[0])
    && (forall k :: 0 <= k < |run| ==> Shaped(n, run[k]))
    && (forall k :: 0 <= k < |run| - 1 ==> Next(n, run[k], run[k + 1]))
  }

  // ------------------------------------------------------------------ vocabulary

  function LogOf(s: System, t: nat): seq<Entry> {
    if t in s.reigns then s.reigns[t].log else []
  }

  ghost predicate Granted(s: System, j: Node, t: nat, c: Node) {
    Vote(j, c, t, t, true) in s.votes
  }

  ghost function Voters(n: nat, s: System, t: nat, c: Node): set<Node> {
    set j | j in Nodes(n) && Granted(s, j, t, c)
  }

  /** j has acknowledged, in term t, a log of at least k entries. */
  ghost predicate Acked(s: System, j: Node, t: nat, k: nat) {
    exists a :: a in s.acks && a.from == j && a.round == t && a.term == t && a.len >= k
  }

  ghost function Ackers(n: nat, s: System, t: nat, k: nat): set<Node> {
    set j | j in Nodes(n) && Acked(s, j, t, k)
  }

  /** Nodes that have acknowledged k entries in term t, or still can. */
  ghost function PossibleAckers(n: nat, s: System, t: nat, k: nat): set<Node>
    requires |s.nodes| == n
  {
    set j | j in Nodes(n) && (s.nodes[j].term <= t || Acked(s, j, t, k))
  }

  /** The leader of t has committed k entries, or may still. */
  ghost predicate CommitPossible(n: nat, s: System, t: nat, k: nat)
    requires |s.nodes| == n
  {
    |PossibleAckers(n, s, t, k)| >= Majority(n)
  }

  /** The k-th entry of term t's log is of term t itself. */
  ghost predicate OwnEntry(s: System, t: nat, k: nat) {
    0 < k <= |LogOf(s, t)| && LogOf(s, t)[k - 1].term == t
  }

  /** The first k entries of term t's log start `log`. */
  ghost predicate Holds(s: System, log: seq<Entry>, t: nat, k: nat) {
    k <= |LogOf(s, t)| && LogOf(s, t)[..k] <= log
  }

  /** The first `commit` entries of `log` lie inside what some leader, of a term up to `t`, committed. */
  ghost predicate CommitBacked(s: System, log: seq<Entry>, commit: nat, t: nat) {
    commit == 0 || exists u: nat, k: nat :: (u, k) in s.points && u <= t && commit <= k && Holds(s, log, u, commit)
  }

  // ------------------------------------------------------------------- invariant

  ghost predicate RoleInv(s: System, i: Node)
    requires i < |s.nodes| == |s.src|
  {
    var node := s.nodes[i];
    && node.disk == DurablePart(node)
    && s.src[i] <= node.term
    && node.log <= LogOf(s, s.src[i])
    && (node.role == Leader ==>
         && node.term in s.reigns && s.reigns[node.term].leader == i
         && node.log == LogOf(s, node.term) && s.src[i] == node.term)
    && (node.role == Candidate ==>
         Granted(s, i, node.term, i) && (node.term in s.reigns ==> s.reigns[node.term].leader != i))
  }

  /** The store replays the applied prefix of the log, which is committed. */
  ghost predicate StoreInv(s: System, i: Node)
    requires i < |s.nodes| == |s.src|
  {
    var node := s.nodes[i];
    && node.applied <= node.commitIndex <= |node.log|
    && node.kv == Replay(node.log[..node.applied])
    && CommitBacked(s, node.log, node.commitIndex, s.src[i])
  }

  ghost predicate VoteInv(n: nat, s: System)
    requires Shaped(n, s)
  {
    && (forall j: Node, t: nat, c: Node :: Granted(s, j, t, c) ==>
         && j < n && c < n && 0 < t <= s.nodes[j].term && t <= s.nodes[c].term
         && (s.nodes[j].term == t ==> s.nodes[j].votedFor == Some(c)))
    && (forall j: Node, t: nat, c: Node, d: Node :: Granted(s, j, t, c) && Granted(s, j, t, d) ==> c == d)
  }

  ghost predicate RequestInv(n: nat, s: System)
    requires Shaped(n, s)
  {
    forall r :: r in s.requests ==>
      && r.cand < n && 0 < r.term <= s.nodes[r.cand].term
      && (s.nodes[r.cand].term == r.term && s.nodes[r.cand].role == Candidate ==>
           r.lastIndex == |s.nodes[r.cand].log| && r.lastTerm == LastTerm(s.nodes[r.cand].log))
  }

  ghost predicate MatchesAt(s: System, log: seq<Entry>, k: nat)
    requires k < |log|
  {
    Holds(s, log, log[k].term, k + 1)
  }

  /** Log matching: where an entry stands, the log below it is that of its own term's leader. */
  ghost predicate Matching(s: System, log: seq<Entry>) {
    forall k: nat :: k < |log| ==> MatchesAt(s, log, k)
  }

  ghost predicate ReignInv(n: nat, s: System, t: nat)
    requires Shaped(n, s) && t in s.reigns
  {
    var reign := s.reigns[t];
    && t > 0 && reign.leader < n && reign.base <= |reign.log|
    && t <= s.nodes[reign.leader].term
    && |Voters(n, s, t, reign.leader)| >= Majority(n)
    && (forall k :: 0 <= k < |reign.log| ==> reign.log[k].term <= t)
    && (forall j, k :: 0 <= j < k < |reign.log| ==> reign.log[j].term <= reign.log[k].term)
    && Matching(s, reign.log)
  }

  ghost predicate AppendInv(n: nat, s: System) {
    && (forall k :: 0 <= k < |s.appends| ==>
         var a := s.appends[k];
         && a.term in s.reigns && s.reigns[a.term].leader == a.from
         && s.reigns[a.term].base <= |a.log| && a.log <= LogOf(s, a.term)
         && a.commit <= |a.log| && CommitBacked(s, a.log, a.commit, a.term))
    && (forall j, k :: 0 <= j < k < |s.appends| && s.appends[j].term == s.appends[k].term ==>
         |s.appends[j].log| <= |s.appends[k].log|)
  }

  /** What is still to be handled is no shorter than what the node has from the same leader. */
  ghost predicate LinkInv(n: nat, s: System)
    requires Shaped(n, s)
  {
    forall j: Node, k ::
      && j < n && 0 <= k < |s.appends| && s.appends[k].term == s.src[j]
      && s.appends[k].from != j && Cursor(s, s.appends[k].from, j) <= k
      ==> |s.nodes[j].log| <= |s.appends[k].log|
  }

  ghost predicate AckInv(n: nat, s: System)
    requires Shaped(n, s)
  {
    forall a :: a in s.acks && a.term == a.round ==>
      && a.from < n && a.round <= s.nodes[a.from].term && a.len <= |LogOf(s, a.round)|
      && (s.nodes[a.from].term == a.round ==> s.src[a.from] == a.round && a.len <= |s.nodes[a.from].log|)
  }

  ghost predicate TaskInv(s: System, i: Node)
    requires i < |s.nodes| == |s.tasks|
  {
    s.tasks[i].Beating? ==>
      && s.tasks[i].term <= s.nodes[i].term
      && Ack(i, i, s.tasks[i].term, s.tasks[i].term, s.tasks[i].selfLen) in s.acks
  }

  ghost predicate PointInv(n: nat, s: System) {
    forall t: nat, k: nat :: (t, k) in s.points ==> OwnEntry(s, t, k) && |Ackers(n, s, t, k)| >= Majority(n)
  }

  /** Every later leader was elected with everything an earlier one has committed, or can still commit. */
  ghost predicate Lock(n: nat, s: System)
    requires Shaped(n, s)
  {
    forall t: nat, k: nat, u: nat :: OwnEntry(s, t, k) && t < u && u in s.reigns && CommitPossible(n, s, t, k) ==>
      k <= s.reigns[u].base && Holds(s, LogOf(s, u), t, k)
  }

  /** A node keeps what it acknowledged, as long as that can be committed. */
  ghost predicate Retain(n: nat, s: System)
    requires Shaped(n, s)
  {
    forall j: Node, t: nat, k: nat :: j < n && Acked(s, j, t, k) && OwnEntry(s, t, k) && CommitPossible(n, s, t, k) ==>
      Holds(s, s.nodes[j].log, t, k)
  }

  /** A candidate holds what its voters acknowledged before they voted for it. */
  ghost predicate VoteRetain(n: nat, s: System)
    requires Shaped(n, s)
  {
    forall j: Node, c: Node, t: nat, k: nat ::
      j < n && c < n && s.nodes[c].role == Candidate && Granted(s, j, s.nodes[c].term, c) && t < s.nodes[c].term
      && Acked(s, j, t, k) && OwnEntry(s, t, k) && CommitPossible(n, s, t, k) ==>
      Holds(s, s.nodes[c].log, t, k)
  }

  ghost predicate Inv(n: nat, s: System) {
    && n >= 1 && Shaped(n, s)
    && (forall i: Node :: i < n ==> RoleInv(s, i) && StoreInv(s, i) && TaskInv(s, i))
    && VoteInv(n, s) && RequestInv(n, s)
    && (forall t: nat :: t in s.reigns ==> ReignInv(n, s, t))
    && AppendInv(n, s) && LinkInv(n, s) && AckInv(n, s) && PointInv(n, s)
    && Lock(n, s) && Retain(n, s) && VoteRetain(n, s)
  }
}
