/**
  What two-phase commit gets done: how each request is answered, by the history of the run,
  and that an idle system can always carry a transaction through to its verdict.
  */
module TwoPhaseRuns {
  import opened Options
  import opened TwoPhaseNode
  import opened TwoPhase

  // -------------------------------------------------------------------- answers

  /** Participant p voted YES on transaction t and has not handled its verdict. */
  ghost predicate Outstanding(s: System, p: Pid, t: Txid) {
    (p, t) in s.votes && (p, t) !in s.applied && (p, t) !in s.dropped
  }

  lemma PromiseIsOutstanding(s: System, p: Pid)
    requires Inv(s) && p < |s.parts|
    ensures s.parts[p].memory.prepared.Some? <==> exists t :: Outstanding(s, p, t)
  {
    if s.parts[p].memory.prepared.Some? {
      var t := s.parts[p].memory.prepared.value.txid;
      assert VoteOk(s, p, t);
      assert Outstanding(s, p, t);
    }
    if t :| Outstanding(s, p, t) {
      assert VoteOk(s, p, t);
    }
  }

  /**
    A participant votes NO exactly when the delta would make its balance negative or it has
    a promise outstanding; its YES is recorded, and is a promise of that delta.
    */
  lemma VotedExactly(run: seq<System>, i: nat, p: Pid, t: Txid, delta: int)
    requires IsRun(run) && i + 1 < |run| && NextStep(run[i], run[i + 1], Deliver(p, Prepare(t, delta)))
    ensures var held := OPENING_BALANCE + AppliedUpTo(run[i], p, run[i].txid);
            && (Answer(run[i].parts[p].memory, Prepare(t, delta)) == Vote(t, false) <==>
                  held + delta < 0 || exists u :: Outstanding(run[i], p, u))
            && (Outstanding(run[i + 1], p, t) <==> Answer(run[i].parts[p].memory, Prepare(t, delta)) == Vote(t, true))
            && run[i + 1].parts[p].memory.balance == held
    ensures Outstanding(run[i + 1], p, t) ==> run[i + 1].parts[p].memory.prepared == Some(Promise(t, delta))
  {
    RunInv(run, i);
    RunInv(run, i + 1);
    var s := run[i];
    assert AccountOk(s, p);
    assert RequestOk(s, p, Prepare(t, delta));
    PromiseIsOutstanding(s, p);
    assert VoteOk(s, p, t) && VoteOk(run[i + 1], p, t);
  }

  /** A verdict that has been handled leaves no promise, and a COMMIT's has taken effect on the balance. */
  lemma VerdictSettles(run: seq<System>, i: nat, p: Pid, verdict: Request)
    requires IsRun(run) && i + 1 < |run| && !verdict.Prepare?
    requires NextStep(run[i], run[i + 1], Deliver(p, verdict))
    ensures var before, after := run[i].parts[p].memory, run[i + 1].parts[p].memory;
            && !Outstanding(run[i + 1], p, verdict.txid)
            && (after.prepared.Some? ==> after.prepared.value.txid != verdict.txid)
            && after.balance == before.balance +
                 if verdict.Commit? && Outstanding(run[i], p, verdict.txid) then DeltaOf(run[i], verdict.txid, p) else 0
  {
    RunInv(run, i);
    RunInv(run, i + 1);
    assert VoteOk(run[i], p, verdict.txid) && VoteOk(run[i + 1], p, verdict.txid);
    assert AccountOk(run[i], p);
  }

  // ---------------------------------------------------------------- a whole round

  ghost predicate Extends(run: seq<System>, more: seq<System>) {
    IsRun(more) && |run| <= |more| && more[..|run|] == run
  }

  ghost function Last(run: seq<System>): System
    requires |run| > 0
  {
    run[|run| - 1]
  }

  lemma Append(run: seq<System>, s: System, step: Step) returns (more: seq<System>)
    requires IsRun(run) && NextStep(Last(run), s, step)
    ensures Extends(run, more) && Last(more) == s
  {
    more := run + [s];
    forall i | 0 <= i < |more| - 1
      ensures Next(more[i], more[i + 1])
    {
      if i < |run| - 1 {
        assert Next(run[i], run[i + 1]);
      } else {
        assert NextStep(more[i], more[i + 1], step);
      }
    }
  }

  lemma ExtendsTwice(a: seq<System>, b: seq<System>, c: seq<System>)
    requires Extends(a, b) && Extends(b, c)
    ensures Extends(a, c)
  {
    assert c[..|a|] == c[..|b|][..|a|];
  }

  /** The coordinator is idle and no participant has promised anything. */
  ghost predicate Quiet(s: System) {
    s.phase == Idle && forall p: Pid :: p < |s.parts| ==> s.parts[p].memory.prepared == None
  }

  /** No balance of the first k participants would become negative. */
  ghost predicate Covered(s: System, deltas: seq<int>, k: nat)
    requires k <= |s.parts|
  {
    forall p: Pid :: p < k ==> s.parts[p].memory.balance + Delta(deltas, p) >= 0
  }

  /** What participant p is after its vote on transaction t. */
  function Asked(a: Account, t: Txid, delta: int): Account {
    Account(a.balance, if a.balance + delta >= 0 then Some(Promise(t, delta)) else None)
  }

  /** The first k participants have voted, and the coordinator has heard them. */
  ghost predicate Polled(s0: System, s: System, deltas: seq<int>, k: nat) {
    && k <= |s0.parts| == |s.parts|
    && s.txid == s0.txid + 1 && s.deltas == s0.deltas[s.txid := deltas]
    && s.phase == Asking(k, false, Covered(s0, deltas, k), false)
    && (forall p: Pid :: p < k ==> s.parts[p].memory == Asked(s0.parts[p].memory, s.txid, Delta(deltas, p)))
    && (forall p: Pid :: k <= p < |s.parts| ==> s.parts[p].memory == s0.parts[p].memory)
    && s.decided == s0.decided
  }

  lemma Poll(run: seq<System>, s0: System, deltas: seq<int>, k: nat) returns (more: seq<System>)
    requires IsRun(run) && Quiet(s0) && k < |s0.parts| && Polled(s0, Last(run), deltas, k)
    ensures Extends(run, more) && Polled(s0, Last(more), deltas, k + 1)
  {
    var s := Last(run);
    var request := Prepare(s.txid, DeltaOf(s, s.txid, k));
    var asked := s.(wire := s.wire + {(k, request)}, phase := s.phase.(waiting := true));
    var run1 := Append(run, asked, Ask);
    var handled := Delivered(asked, k, request);
    var run2 := Append(run1, handled, Deliver(k, request));
    var yes := s0.parts[k].memory.balance + Delta(deltas, k) >= 0;
    var heard := handled.(phase := Asking(k + 1, false, s.phase.allYes && yes, false));
    more := Append(run2, heard, Hear(yes));
    ExtendsTwice(run, run1, run2);
    ExtendsTwice(run, run2, more);
    assert Covered(s0, deltas, k + 1) <==> Covered(s0, deltas, k) && yes;
  }

  lemma PollAll(run: seq<System>, s0: System, deltas: seq<int>, k: nat) returns (more: seq<System>)
    requires IsRun(run) && Quiet(s0) && k <= |s0.parts| && Polled(s0, Last(run), deltas, k)
    ensures Extends(run, more) && Polled(s0, Last(more), deltas, |s0.parts|)
    decreases |s0.parts| - k
  {
    more := run;
    if k < |s0.parts| {
      var next := Poll(run, s0, deltas, k);
      more := PollAll(next, s0, deltas, k + 1);
      ExtendsTwice(run, next, more);
    }
  }

  /** The first k participants have handled the verdict. */
  ghost predicate Told(s0: System, s: System, deltas: seq<int>, k: nat) {
    && k <= |s0.parts| == |s.parts| && s.txid == s0.txid + 1
    && var commit := Covered(s0, deltas, |s0.parts|);
       && s.phase == Telling(commit, k) && s.decided == s0.decided[s.txid := commit]
       && (forall p: Pid :: p < k ==>
             s.parts[p].memory == Account(s0.parts[p].memory.balance + if commit then Delta(deltas, p) else 0, None))
       && (forall p: Pid :: k <= p < |s.parts| ==>
             s.parts[p].memory == Asked(s0.parts[p].memory, s.txid, Delta(deltas, p)))
  }

  lemma TellOne(run: seq<System>, s0: System, deltas: seq<int>, k: nat) returns (more: seq<System>)
    requires IsRun(run) && Quiet(s0) && k < |s0.parts| && Told(s0, Last(run), deltas, k)
    ensures Extends(run, more) && Told(s0, Last(more), deltas, k + 1)
  {
    var s := Last(run);
    var commit := Covered(s0, deltas, |s0.parts|);
    var request := if commit then Commit(s.txid) else Abort(s.txid);
    var told := s.(wire := s.wire + {(k, request)}, phase := Telling(commit, k + 1));
    var run1 := Append(run, told, Tell);
    more := Append(run1, Delivered(told, k, request), Deliver(k, request));
    ExtendsTwice(run, run1, more);
  }

  lemma TellAll(run: seq<System>, s0: System, deltas: seq<int>, k: nat) returns (more: seq<System>)
    requires IsRun(run) && Quiet(s0) && k <= |s0.parts| && Told(s0, Last(run), deltas, k)
    ensures Extends(run, more) && Told(s0, Last(more), deltas, |s0.parts|)
    decreases |s0.parts| - k
  {
    more := run;
    if k < |s0.parts| {
      var next := TellOne(run, s0, deltas, k);
      more := TellAll(next, s0, deltas, k + 1);
      ExtendsTwice(run, next, more);
    }
  }

  /**
    From every reachable quiet state and for all deltas there is a run to a quiet state in
    which the transaction is decided, COMMIT exactly when no balance would become negative,
    and each balance has changed by exactly its delta on COMMIT and not at all on ABORT.
    */
  lemma RoundCompletes(run: seq<System>, deltas: seq<int>) returns (more: seq<System>)
    requires IsRun(run) && Quiet(Last(run))
    ensures Extends(run, more) && Quiet(Last(more))
    ensures var s, s', commit := Last(run), Last(more), Covered(Last(run), deltas, |Last(run).parts|);
            && s'.txid == s.txid + 1 && s'.decided == s.decided[s'.txid := commit]
            && |s'.parts| == |s.parts|
            && forall p: Pid :: p < |s.parts| ==>
                 s'.parts[p].memory.balance == s.parts[p].memory.balance + if commit then Delta(deltas, p) else 0
  {
    var s := Last(run);
    var n := |s.parts|;
    var started := s.(txid := s.txid + 1, deltas := s.deltas[s.txid + 1 := deltas],
                      phase := Asking(0, false, true, false));
    var run1 := Append(run, started, Start(deltas, false));
    var run2 := PollAll(run1, s, deltas, 0);
    var polled := Last(run2);
    var commit := Covered(s, deltas, n);
    var decided := polled.(phase := Telling(commit, 0), decided := polled.decided[polled.txid := commit]);
    var run3 := Append(run2, decided, Decide);
    var run4 := TellAll(run3, s, deltas, 0);
    var told := Last(run4);
    more := Append(run4, told.(phase := Idle), Finish);
    ExtendsTwice(run, run1, run2);
    ExtendsTwice(run, run2, run3);
    ExtendsTwice(run, run3, run4);
    ExtendsTwice(run, run4, more);
  }
}
