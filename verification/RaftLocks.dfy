/**
  The leader's thread takes its lock twice before a heartbeat round: first for its role and
  term, then for what it sends. Here the two are two steps. A round is late when at the
  second the node no longer leads the term it read at the first.
  */
module RaftLocks {
  import opened Options
  import opened RaftNode
  import opened RaftSystem
  import opened RaftTheorems

  // The cluster, and the term that the thread of a node between its two locks has read.
  datatype Locks = Locks(sys: System, reading: map<Node, nat>)

  datatype LockStep = FirstLock(i: Node) | SecondLock(i: Node) | Other(step: Step)

  /** The second lock: what the node holds now, under the term read at the first. */
  function SendUnder(s: System, i: Node, term: nat): System
    requires i < |s.nodes| == |s.tasks|
  {
    var node := s.nodes[i];
    s.(tasks := s.tasks[i := Beating(term, |node.log|)],
       appends := s.appends + [AppendRequest(i, term, node.log, node.commitIndex)],
       acks := s.acks + {Ack(i, i, term, term, |node.log|)})
  }

  ghost predicate StillLeads(s: System, i: Node, term: nat)
    requires i < |s.nodes|
  {
    s.nodes[i].role == Leader && s.nodes[i].term == term
  }

  /** Of the steps of a node's own thread. */
  predicate OfThread(step: Step) {
    step.Campaign? || step.EndCampaign? || step.EndBeat?
  }

  ghost predicate NextLock(n: nat, late: bool, l: Locks, l': Locks, step: LockStep)
    requires Shaped(n, l.sys)
  {
    match step
    case FirstLock(i) =>
      && i < n && i !in l.reading && l.sys.tasks[i].Idle? && l.sys.nodes[i].role == Leader
      && l' == Locks(l.sys, l.reading[i := l.sys.nodes[i].term])
    case SecondLock(i) =>
      && i < n && i in l.reading && l.sys.tasks[i].Idle? && (late || StillLeads(l.sys, i, l.reading[i]))
      && l' == Locks(SendUnder(l.sys, i, l.reading[i]), l.reading - {i})
    case Other(step) =>
      && !step.Beat? && (OfThread(step) ==> step.i !in l.reading)
      && NextStep(n, l.sys, l'.sys, step)
      && l'.reading == if step.Restart? then l.reading - {step.i} else l.reading
  }

  ghost predicate LockNext(n: nat, late: bool, l: Locks, l': Locks)
    requires Shaped(n, l.sys)
  {
    exists step :: NextLock(n, late, l, l', step)
  }

  /** A run, in which rounds may be late or none is. */
  ghost predicate IsLockRun(n: nat, late: bool, run: seq<Locks>) {
    && |run| > 0
    && Init(n, run[0].sys) && run[0].reading == map[]
    && (forall k :: 0 <= k < |run| ==> Shaped(n, run[k].sys))
    && (forall k :: 0 <= k < |run| - 1 ==> LockNext(n, late, run[k], run[k + 1]))
  }

  // -------------------------------------------------------------- without late rounds

  lemma StepOrStutter(n: nat, l: Locks, l': Locks)
    requires Shaped(n, l.sys) && LockNext(n, false, l, l')
    ensures l'.sys == l.sys || Next(n, l.sys, l'.sys)
  {
    var step :| NextLock(n, false, l, l', step);
    match step {
      case FirstLock(_) =>
      case SecondLock(i) => assert NextStep(n, l.sys, l'.sys, Beat(i));
      case Other(step) => assert NextStep(n, l.sys, l'.sys, step);
    }
  }

  ghost predicate Traces(run: seq<Locks>, flat: seq<System>, at: seq<nat>) {
    && |at| == |run|
    && (forall k :: 0 <= k < |run| ==> at[k] < |flat| && flat[at[k]] == run[k].sys)
    && (forall j, k :: 0 <= j < k < |run| ==> at[j] <= at[k])
  }

  lemma RunLonger(n: nat, run: seq<System>, s: System)
    requires IsRun(n, run) && Shaped(n, s) && Next(n, run[|run| - 1], s)
    ensures IsRun(n, run + [s])
  {
    var longer := run + [s];
    forall k | 0 <= k < |longer| - 1
      ensures Next(n, longer[k], longer[k + 1])
    {
      if k < |run| - 1 {
        assert Next(n, run[k], run[k + 1]);
      }
    }
  }

  lemma ShorterRun(n: nat, late: bool, run: seq<Locks>)
    requires IsLockRun(n, late, run) && |run| > 1
    ensures IsLockRun(n, late, run[..|run| - 1])
    ensures Shaped(n, run[|run| - 2].sys) && LockNext(n, late, run[|run| - 2], run[|run| - 1])
  {
    var front := run[..|run| - 1];
    forall k | 0 <= k < |front| - 1
      ensures LockNext(n, late, front[k], front[k + 1])
    {
      assert LockNext(n, late, run[k], run[k + 1]);
    }
    assert LockNext(n, late, run[|run| - 2], run[|run| - 2 + 1]);
  }

  /** Refinement: without late rounds the cluster goes through a run in which the two locks are one step. */
  lemma {:induction false} OneLockIsEnough(n: nat, run: seq<Locks>) returns (flat: seq<System>, at: seq<nat>)
    requires IsLockRun(n, false, run)
    ensures IsRun(n, flat) && Traces(run, flat, at) && at[|run| - 1] == |flat| - 1
    decreases |run|
  {
    if |run| == 1 {
      flat, at := [run[0].sys], [0];
    } else {
      ShorterRun(n, false, run);
      var front, last := run[..|run| - 1], run[|run| - 1];
      flat, at := OneLockIsEnough(n, front);
      StepOrStutter(n, run[|run| - 2], last);
      if last.sys != flat[|flat| - 1] {
        RunLonger(n, flat, last.sys);
        flat := flat + [last.sys];
      }
      at := at + [|flat| - 1];
    }
  }

  // ----------------------------------------------------------------- what that gives

  /** Then the stores agree at any two times, */
  lemma StoresAgree(n: nat, run: seq<Locks>, a: nat, p: Node, b: nat, q: Node)
    requires n >= 1 && IsLockRun(n, false, run) && a < |run| && b < |run| && p < n && q < n
    ensures var x, y := run[a].sys.nodes[p], run[b].sys.nodes[q];
            && x.applied <= |x.log| && y.applied <= |y.log|
            && (x.log[..x.applied] <= y.log[..y.applied] || y.log[..y.applied] <= x.log[..x.applied])
            && x.kv == Replay(x.log[..x.applied]) && y.kv == Replay(y.log[..y.applied])
  {
    var flat, at := OneLockIsEnough(n, run);
    StateMachineSafety(n, flat, at[a], p, at[b], q);
  }

  /** and every node can start again from its file. */
  ghost predicate Restartable(n: nat, late: bool) {
    forall run: seq<Locks>, k: nat, i: Node :: IsLockRun(n, late, run) && k < |run| && i < n ==>
      Reload(run[k].sys.nodes[i].disk).Some?
  }

  lemma RestartableWithoutLate(n: nat)
    requires n >= 1
    ensures Restartable(n, false)
  {
    forall run: seq<Locks>, k: nat, i: Node | IsLockRun(n, false, run) && k < |run| && i < n
      ensures Reload(run[k].sys.nodes[i].disk).Some?
    {
      var flat, at := OneLockIsEnough(n, run);
      Bounds(n, flat, at[k], i);
    }
  }
}
