/** The invariant over whole runs, and what follows from it. */
module RaftTheorems {
  import opened Options
  import opened RaftNode
  import opened RaftSystem
  import opened RaftSafety
  import opened RaftReplication

  // ------------------------------------------------------------- every step

  /** Catching up with its own commit index is silent. */
  lemma CatchUp(n: nat, s: System, i: Node)
    requires Inv(n, s) && i < n
    ensures Apply(s.nodes[i]).Some? && SilentChange(s.nodes[i], Apply(s.nodes[i]).value)
  {
    assert RoleInv(s, i) && StoreInv(s, i);
    ApplyReplays(s.nodes[i]);
  }

  lemma ReloadCatchesUp(n: nat, s: System, i: Node)
    requires Inv(n, s) && i < n
    ensures Reload(s.nodes[i].disk).Some? && SilentChange(s.nodes[i], Reload(s.nodes[i].disk).value)
  {
    var d := s.nodes[i].disk;
    assert RoleInv(s, i) && StoreInv(s, i);
    ApplyReplays(NodeState(d.term, Follower, d.votedFor, d.log, d.commitIndex, 0, map[], d));
  }

  lemma EndCampaignKeeps(n: nat, s: System, i: Node, replies: map<Node, (nat, bool)>, after: NodeState)
    requires Inv(n, s) && i < n && s.tasks[i].Electing? && VoteRepliesSent(s, i, replies)
    requires FinishCampaign(n, s.nodes[i], s.tasks[i].term, replies, after)
    ensures Inv(n, EndCampaignStep(s, i, after))
  {
    assert RoleInv(s, i) && StoreInv(s, i);
    if after == s.nodes[i].(role := Leader) && Wins(n, s, i, replies) {
      WonKeeps(n, s, i, replies);
    } else {
      assert SilentChange(s.nodes[i], after);
      SilentKeeps(n, s, EndCampaignStep(s, i, after), i);
    }
  }

  lemma SettledNode(n: nat, s: System, i: Node, t: nat, top: nat, agreed: nat)
    requires Shaped(n, s) && i < n && RoleInv(s, i) && StoreInv(s, i)
    requires s.nodes[i].role == Leader && s.nodes[i].term == t && top <= t
    ensures var node := s.nodes[i];
            SettleBeat(node, t, top, agreed) ==
              if node.commitIndex < agreed <= |node.log| && node.log[agreed - 1].term == t
              then Some(AdvancedNode(node, agreed))
              else Apply(node)
  {
    var node := s.nodes[i];
    assert Persist(node) == node;
    ApplyReplays(node);
    if node.commitIndex < agreed <= |node.log| && node.log[agreed - 1].term == t {
      AppliedTo(node, agreed);
    }
  }

  lemma AppliedTo(node: NodeState, agreed: nat)
    requires node.applied <= agreed <= |node.log| && node.kv == Replay(node.log[..node.applied])
    ensures Apply(Persist(node.(commitIndex := agreed))) == Some(AdvancedNode(node, agreed))
  {
    ApplyReplays(Persist(node.(commitIndex := agreed)));
  }

  lemma EndBeatOfLeader(n: nat, s: System, i: Node, replies: map<Node, (nat, nat)>, agreed: nat)
    requires Inv(n, s) && i < n && s.tasks[i].Beating? && AcksSent(s, i, replies)
    requires s.nodes[i].role == Leader && s.nodes[i].term == s.tasks[i].term
    requires IsAgreed(n, i, s.tasks[i].term, s.tasks[i].selfLen, replies, agreed)
    ensures var node := s.nodes[i];
            if node.commitIndex < agreed <= |node.log| && node.log[agreed - 1].term == node.term
            then Inv(n, EndBeatStep(s, i, AdvancedNode(node, agreed)))
            else Apply(node).Some? && Inv(n, EndBeatStep(s, i, Apply(node).value))
  {
    var node := s.nodes[i];
    if node.commitIndex < agreed <= |node.log| && node.log[agreed - 1].term == node.term {
      AdvanceKeeps(n, s, i, replies, agreed);
    } else {
      EndBeatWithout(n, s, i);
    }
  }

  /** A round that commits nothing new. */
  lemma EndBeatWithout(n: nat, s: System, i: Node)
    requires Inv(n, s) && i < n
    ensures Apply(s.nodes[i]).Some? && Inv(n, EndBeatStep(s, i, Apply(s.nodes[i]).value))
  {
    CatchUp(n, s, i);
    SilentKeeps(n, s, EndBeatStep(s, i, Apply(s.nodes[i]).value), i);
  }

  lemma EndBeatDeposed(n: nat, s: System, i: Node, top: nat)
    requires Inv(n, s) && i < n
    ensures Inv(n, EndBeatStep(s, i, s.nodes[i]))
    ensures top > s.nodes[i].term ==> Inv(n, EndBeatStep(s, i, StepDown(s.nodes[i], top)))
  {
    assert RoleInv(s, i) && StoreInv(s, i);
    SilentKeeps(n, s, EndBeatStep(s, i, s.nodes[i]), i);
    if top > s.nodes[i].term {
      SilentKeeps(n, s, EndBeatStep(s, i, StepDown(s.nodes[i], top)), i);
    }
  }

  lemma EndBeatKeeps(n: nat, s: System, i: Node, replies: map<Node, (nat, nat)>, top: nat, agreed: nat)
    requires Inv(n, s) && i < n && s.tasks[i].Beating? && AcksSent(s, i, replies)
    requires IsAgreed(n, i, s.tasks[i].term, s.tasks[i].selfLen, replies, agreed)
    ensures var r := SettleBeat(s.nodes[i], s.tasks[i].term, top, agreed);
            r.Some? && Inv(n, EndBeatStep(s, i, r.value))
  {
    if top <= s.nodes[i].term && s.nodes[i].role == Leader && s.nodes[i].term == s.tasks[i].term {
      assert RoleInv(s, i) && StoreInv(s, i);
      SettledNode(n, s, i, s.tasks[i].term, top, agreed);
      EndBeatOfLeader(n, s, i, replies, agreed);
    } else {
      EndBeatDeposed(n, s, i, top);
    }
  }

  lemma StepKeepsInv(n: nat, s: System, s': System, step: Step)
    requires Inv(n, s) && NextStep(n, s, s', step)
    ensures Inv(n, s')
  {
    var i := step.i;
    match step {
      case Campaign(_) => CampaignKeeps(n, s, i);
      case VoteOn(_, req) => VoteOnKeeps(n, s, i, req);
      case EndCampaign(_, replies, after) => EndCampaignKeeps(n, s, i, replies, after);
      case Beat(_) => BeatKeeps(n, s, i);
      case Adopt(_, k) => AdoptKeeps(n, s, i, k);
      case EndBeat(_, replies, after) =>
        var top: nat, agreed: nat :| IsHighest(s.tasks[i].term, AckTerms(replies), top)
          && IsAgreed(n, i, s.tasks[i].term, s.tasks[i].selfLen, replies, agreed)
          && Some(after) == SettleBeat(s.nodes[i], s.tasks[i].term, top, agreed);
        EndBeatKeeps(n, s, i, replies, top, agreed);
      case Command(_, line) => CommandKeeps(n, s, i, line);
      case Get(_) => GetKeeps(n, s, s', i);
      case Restart(_) => RestartKeeps(n, s, s', i);
    }
  }

  lemma GetKeeps(n: nat, s: System, s': System, i: Node)
    requires Inv(n, s) && i < n && OnGet(s.nodes[i]).Some? && s' == s.(nodes := s.nodes[i := OnGet(s.nodes[i]).value])
    ensures Inv(n, s')
  {
    CatchUp(n, s, i);
    assert RoleInv(s, i) && StoreInv(s, i);
    assert s'.tasks == s.tasks[i := s'.tasks[i]];
    SilentKeeps(n, s, s', i);
  }

  lemma RestartKeeps(n: nat, s: System, s': System, i: Node)
    requires Inv(n, s) && i < n && Reload(s.nodes[i].disk).Some?
    requires s' == s.(nodes := s.nodes[i := Reload(s.nodes[i].disk).value], tasks := s.tasks[i := Idle])
    ensures Inv(n, s')
  {
    ReloadCatchesUp(n, s, i);
    SilentKeeps(n, s, s', i);
  }

  // --------------------------------------------------------------------- all runs

  lemma InitInv(n: nat, s: System)
    requires n >= 1 && Init(n, s)
    ensures Inv(n, s)
  {
    forall i: Node | i < n
      ensures RoleInv(s, i) && StoreInv(s, i) && TaskInv(s, i)
    {
      ApplyReplays(NodeState(0, Follower, None, [], 0, 0, map[], NO_FILE));
    }
  }

  lemma {:induction false} RunInv(n: nat, run: seq<System>, k: nat)
    requires n >= 1 && IsRun(n, run) && k < |run|
    ensures Inv(n, run[k])
  {
    if k == 0 {
      InitInv(n, run[0]);
    } else {
      RunInv(n, run, k - 1);
      assert Next(n, run[k - 1], run[k - 1 + 1]);
      var step :| NextStep(n, run[k - 1], run[k], step);
      StepKeepsInv(n, run[k - 1], run[k], step);
    }
  }

  /** Reigns keep their leader and only extend their log; commit points stay. */
  ghost predicate HistoryGrows(s: System, s': System) {
    && (forall t :: t in s.reigns ==>
         && t in s'.reigns && s'.reigns[t].leader == s.reigns[t].leader && s'.reigns[t].base == s.reigns[t].base
         && s.reigns[t].log <= s'.reigns[t].log)
    && s.points <= s'.points
  }

  lemma StepGrowsHistory(n: nat, s: System, s': System, step: Step)
    requires Inv(n, s) && NextStep(n, s, s', step)
    ensures HistoryGrows(s, s')
  {
    assert RoleInv(s, step.i);
    if step.EndCampaign? && s'.reigns != s.reigns {
      WinnerIsFirst(n, s, step.i, step.replies);
    }
  }

  lemma HistoryGrowsTwice(s0: System, s1: System, s2: System)
    requires HistoryGrows(s0, s1) && HistoryGrows(s1, s2)
    ensures HistoryGrows(s0, s2)
  {
  }

  lemma RunStepGrowsHistory(n: nat, run: seq<System>, k: nat)
    requires n >= 1 && IsRun(n, run) && k + 1 < |run|
    ensures HistoryGrows(run[k], run[k + 1])
  {
    RunInv(n, run, k);
    assert Next(n, run[k], run[k + 1]);
    var step :| NextStep(n, run[k], run[k + 1], step);
    StepGrowsHistory(n, run[k], run[k + 1], step);
  }

  ghost predicate GrowsAt(run: seq<System>, k: nat) {
    k + 1 < |run| ==> HistoryGrows(run[k], run[k + 1])
  }

  lemma {:induction false} GrowsOver(run: seq<System>, a: nat, b: nat)
    requires a <= b < |run| && forall k: nat :: GrowsAt(run, k)
    ensures HistoryGrows(run[a], run[b])
    decreases b
  {
    if a < b {
      GrowsOver(run, a, b - 1);
      assert GrowsAt(run, b - 1);
      HistoryGrowsTwice(run[a], run[b - 1], run[b]);
    }
  }

  lemma RunGrowsHistory(n: nat, run: seq<System>, a: nat, b: nat)
    requires n >= 1 && IsRun(n, run) && a <= b < |run|
    ensures HistoryGrows(run[a], run[b])
  {
    forall k: nat
      ensures GrowsAt(run, k)
    {
      if k + 1 < |run| {
        RunStepGrowsHistory(n, run, k);
      }
    }
    GrowsOver(run, a, b);
  }

  /** Election safety: at most one node is ever leader of a term, over the whole run, crashes included. */
  lemma ElectionSafety(n: nat, run: seq<System>, a: nat, p: Node, b: nat, q: Node)
    requires n >= 1 && IsRun(n, run) && a < |run| && b < |run| && p < n && q < n
    requires run[a].nodes[p].role == Leader && run[b].nodes[q].role == Leader
    requires run[a].nodes[p].term == run[b].nodes[q].term
    ensures p == q
  {
    var z := if a <= b then b else a;
    RunInv(n, run, a);
    RunInv(n, run, b);
    RunGrowsHistory(n, run, a, z);
    RunGrowsHistory(n, run, b, z);
    assert RoleInv(run[a], p) && RoleInv(run[b], q);
  }

  /** Log matching: logs of any two nodes that agree on the term at an index agree up to it. */
  lemma LogMatching(n: nat, run: seq<System>, a: nat, p: Node, q: Node, k: nat)
    requires n >= 1 && IsRun(n, run) && a < |run| && p < n && q < n
    requires k < |run[a].nodes[p].log| && k < |run[a].nodes[q].log|
    requires run[a].nodes[p].log[k].term == run[a].nodes[q].log[k].term
    ensures run[a].nodes[p].log[..k + 1] == run[a].nodes[q].log[..k + 1]
  {
    var s := run[a];
    RunInv(n, run, a);
    LogShape(n, s, p);
    LogShape(n, s, q);
    var t := s.nodes[p].log[k].term;
    assert MatchesAt(s, s.nodes[p].log, k) && MatchesAt(s, s.nodes[q].log, k);
  }

  lemma LaterReignHolds(n: nat, s: System, t: nat, k: nat, u: nat)
    requires Inv(n, s) && (t, k) in s.points && u in s.reigns && t < u
    ensures k <= s.reigns[u].base && Holds(s, LogOf(s, u), t, k)
  {
    PointIsPossible(n, s, t, k);
    LockedLater(n, s, t, k, u);
  }

  lemma LockedLater(n: nat, s: System, t: nat, k: nat, u: nat)
    requires Shaped(n, s) && Lock(n, s) && OwnEntry(s, t, k) && CommitPossible(n, s, t, k) && u in s.reigns && t < u
    ensures k <= s.reigns[u].base && Holds(s, LogOf(s, u), t, k)
  {
  }

  /** A commit point stays one, with the same entries. */
  lemma PointStays(n: nat, s: System, s': System, t: nat, k: nat)
    requires Inv(n, s) && HistoryGrows(s, s') && (t, k) in s.points
    ensures (t, k) in s'.points && t in s.reigns && k <= |LogOf(s, t)| <= |LogOf(s', t)|
    ensures LogOf(s', t)[..k] == LogOf(s, t)[..k]
  {
    PointIsPossible(n, s, t, k);
  }

  lemma LeaderIsReign(n: nat, s: System, q: Node)
    requires Inv(n, s) && q < n && s.nodes[q].role == Leader
    ensures var u := s.nodes[q].term;
            u in s.reigns && s.nodes[q].log == LogOf(s, u) && s.reigns[u].base <= |LogOf(s, u)|
  {
    assert RoleInv(s, q) && ReignInv(n, s, s.nodes[q].term);
  }

  /**
    Leader completeness: whatever the leader of term t committed at any time in the run,
    every leader of a later term holds from its election on, at any time in the run.
    */
  lemma LeaderCompleteness(n: nat, run: seq<System>, a: nat, t: nat, k: nat, b: nat, q: Node)
    requires n >= 1 && IsRun(n, run) && a < |run| && b < |run| && q < n
    requires (t, k) in run[a].points && run[b].nodes[q].role == Leader && t < run[b].nodes[q].term
    ensures k <= |run[b].nodes[q].log| && k <= |LogOf(run[a], t)|
    ensures run[b].nodes[q].log[..k] == LogOf(run[a], t)[..k]
  {
    var z := if a <= b then b else a;
    var u := run[b].nodes[q].term;
    RunInv(n, run, a);
    RunInv(n, run, b);
    RunInv(n, run, z);
    RunGrowsHistory(n, run, a, z);
    RunGrowsHistory(n, run, b, z);
    PointStays(n, run[a], run[z], t, k);
    LeaderIsReign(n, run[b], q);
    LaterReignHolds(n, run[z], t, k, u);
    SharedStart(run[b].nodes[q].log, LogOf(run[z], u), LogOf(run[z], t)[..k]);
  }

  lemma SharedStart<T>(a: seq<T>, whole: seq<T>, start: seq<T>)
    requires a <= whole && start <= whole && |start| <= |a|
    ensures a[..|start|] == start
  {
  }

  /** Two commit points of one state lie on one line of entries. */
  lemma PointsAgree(n: nat, s: System, t: nat, j: nat, u: nat, k: nat)
    requires Inv(n, s) && (t, j) in s.points && (u, k) in s.points
    ensures j <= |LogOf(s, t)| && k <= |LogOf(s, u)|
    ensures LogOf(s, t)[..j] <= LogOf(s, u)[..k] || LogOf(s, u)[..k] <= LogOf(s, t)[..j]
  {
    PointIsPossible(n, s, t, j);
    PointIsPossible(n, s, u, k);
    if t < u && u in s.reigns {
      LockedLater(n, s, t, j, u);
    } else if u < t && t in s.reigns {
      LockedLater(n, s, u, k, t);
    }
  }

  /** What a node has applied is a prefix of a commit point. */
  lemma AppliedInPoint(n: nat, s: System, p: Node) returns (t: nat, k: nat)
    requires Inv(n, s) && p < n && s.nodes[p].applied > 0
    ensures s.nodes[p].applied <= |s.nodes[p].log|
    ensures (t, k) in s.points && k <= |LogOf(s, t)|
    ensures s.nodes[p].log[..s.nodes[p].applied] <= LogOf(s, t)[..k]
  {
    var node := s.nodes[p];
    assert StoreInv(s, p);
    t, k :| (t, k) in s.points && t <= s.src[p] && node.commitIndex <= k && Holds(s, node.log, t, node.commitIndex);
    PointIsPossible(n, s, t, k);
    PrefixInside(node.log, LogOf(s, t), node.applied, node.commitIndex, k);
  }

  lemma PrefixInside<T>(a: seq<T>, b: seq<T>, x: nat, y: nat, z: nat)
    requires x <= y <= z <= |b| && b[..y] <= a
    ensures x <= |a| && a[..x] <= b[..z]
  {
  }

  lemma AppliedIsBacked(n: nat, run: seq<System>, a: nat, p: Node, z: nat) returns (t: nat, k: nat)
    requires n >= 1 && IsRun(n, run) && a <= z < |run| && p < n && run[a].nodes[p].applied > 0
    ensures run[a].nodes[p].applied <= |run[a].nodes[p].log|
    ensures (t, k) in run[z].points && k <= |LogOf(run[z], t)|
    ensures run[a].nodes[p].log[..run[a].nodes[p].applied] <= LogOf(run[z], t)[..k]
  {
    RunInv(n, run, a);
    RunGrowsHistory(n, run, a, z);
    t, k := AppliedInPoint(n, run[a], p);
    PointStays(n, run[a], run[z], t, k);
  }

  lemma PrefixesOfOneLine<T>(a: seq<T>, b: seq<T>, x: seq<T>, y: seq<T>)
    requires a <= x && b <= y && (x <= y || y <= x)
    ensures a <= b || b <= a
  {
  }

  /**
    State-machine safety: the commands any two nodes have applied, at any two times of a
    run with crashes and leader changes, are one a prefix of the other, and each node's
    store is the replay of what it has applied.
    */
  lemma StateMachineSafety(n: nat, run: seq<System>, a: nat, p: Node, b: nat, q: Node)
    requires n >= 1 && IsRun(n, run) && a < |run| && b < |run| && p < n && q < n
    ensures var x, y := run[a].nodes[p], run[b].nodes[q];
            && x.applied <= |x.log| && y.applied <= |y.log|
            && (x.log[..x.applied] <= y.log[..y.applied] || y.log[..y.applied] <= x.log[..x.applied])
            && x.kv == Replay(x.log[..x.applied]) && y.kv == Replay(y.log[..y.applied])
  {
    var z := if a <= b then b else a;
    RunInv(n, run, a);
    RunInv(n, run, b);
    RunInv(n, run, z);
    var x, y := run[a].nodes[p], run[b].nodes[q];
    assert StoreInv(run[a], p) && StoreInv(run[b], q);
    if x.applied > 0 && y.applied > 0 {
      var t, j := AppliedIsBacked(n, run, a, p, z);
      var u, k := AppliedIsBacked(n, run, b, q, z);
      PointsAgree(n, run[z], t, j, u, k);
      PrefixesOfOneLine(x.log[..x.applied], y.log[..y.applied], LogOf(run[z], t)[..j], LogOf(run[z], u)[..k]);
    }
  }

  /** Bounds: nothing is ever applied past the commit index, or committed past the log, also after a reload. */
  lemma Bounds(n: nat, run: seq<System>, a: nat, p: Node)
    requires n >= 1 && IsRun(n, run) && a < |run| && p < n
    ensures var node := run[a].nodes[p];
            && node.applied <= node.commitIndex <= |node.log|
            && Reload(node.disk).Some? && Reload(node.disk).value.applied == node.commitIndex
  {
    RunInv(n, run, a);
    ReloadCatchesUp(n, run[a], p);
    assert RoleInv(run[a], p) && StoreInv(run[a], p);
    var d := run[a].nodes[p].disk;
    ApplyReplays(NodeState(d.term, Follower, d.votedFor, d.log, d.commitIndex, 0, map[], d));
  }

  /** So no handler ever panics: reading, adopting a shorter log, and ending a heartbeat round all succeed. */
  lemma NeverPanics(n: nat, run: seq<System>, a: nat, i: Node)
    requires n >= 1 && IsRun(n, run) && a < |run| && i < n
    ensures OnGet(run[a].nodes[i]).Some?
    ensures forall k: nat ::
              k < |run[a].appends| && run[a].appends[k].from != i && Cursor(run[a], run[a].appends[k].from, i) <= k ==>
              AdoptStep(run[a], i, k).Some?
    ensures run[a].tasks[i].Beating? ==> forall replies :: AcksSent(run[a], i, replies) ==>
              !FinishBeat(n, i, run[a].nodes[i], run[a].tasks[i].term, run[a].tasks[i].selfLen, replies, None)
  {
    var s := run[a];
    RunInv(n, run, a);
    CatchUp(n, s, i);
    forall k: nat | k < |s.appends| && s.appends[k].from != i && Cursor(s, s.appends[k].from, i) <= k
      ensures AdoptStep(s, i, k).Some?
    {
      AdoptKeeps(n, s, i, k);
    }
    if s.tasks[i].Beating? {
      forall replies | AcksSent(s, i, replies)
        ensures !FinishBeat(n, i, s.nodes[i], s.tasks[i].term, s.tasks[i].selfLen, replies, None)
      {
        if FinishBeat(n, i, s.nodes[i], s.tasks[i].term, s.tasks[i].selfLen, replies, None) {
          var top: nat, agreed: nat :| IsHighest(s.tasks[i].term, AckTerms(replies), top)
            && IsAgreed(n, i, s.tasks[i].term, s.tasks[i].selfLen, replies, agreed)
            && None == SettleBeat(s.nodes[i], s.tasks[i].term, top, agreed);
          EndBeatKeeps(n, s, i, replies, top, agreed);
        }
      }
    }
  }
}
