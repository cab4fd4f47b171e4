/** What a correct member counts: of each other member the first vote it handled since it entered its view. */
module PbftVotes {
  import opened Tallies
  import opened PbftReplica
  import opened PbftSystem
  import opened PbftTheorems
  import opened PbftAnswers
  import opened PbftComplaints

  /** The step empties p's tallies: it starts again, or enters a view. */
  ghost predicate Empties(s: System, s': System, step: Step, p: Node)
    requires p < |s.replicas| && p < |s'.replicas|
  {
    step.p == p && (step.Restart? || step.HalfEnter? || s'.replicas[p].view != s.replicas[p].view)
  }

  /** The step hands p a vote of its current view, past which it has not complained, signed by the member it names. */
  ghost predicate HandsVote(c: Config, s: System, step: Step, p: Node)
    requires p < |s.replicas|
  {
    && step.p == p && step.Deliver? && (step.msg.Prepare? || step.msg.Commit?)
    && step.msg.from < c.n && step.msg.view == s.replicas[p].view && s.replicas[p].highestVcSent <= step.msg.view
    && step.msg.sig == Signature(step.msg.from, if step.msg.Prepare? then PrepareSt(step.msg.view, step.msg.m)
                                                else CommitSt(step.msg.view, step.msg.m))
  }

  ghost function PrepareEvent(c: Config, s: System, s': System, step: Step, p: Node): Event<(Value, Signature)>
    requires p < |s.replicas| && p < |s'.replicas|
  {
    if Empties(s, s', step, p) then Reset
    else if HandsVote(c, s, step, p) && step.msg.Prepare? then Vote(step.msg.from, (step.msg.m, step.msg.sig))
    else Other
  }

  ghost function CommitEvent(c: Config, s: System, s': System, step: Step, p: Node): Event<Value>
    requires p < |s.replicas| && p < |s'.replicas|
  {
    if Empties(s, s', step, p) then Reset
    else if HandsVote(c, s, step, p) && step.msg.Commit? then Vote(step.msg.from, step.msg.m)
    else Other
  }

  ghost function PrepareEvents(c: Config, run: seq<System>, steps: seq<Step>, p: Node): seq<Event<(Value, Signature)>>
    requires |run| == |steps| + 1 && forall k :: 0 <= k < |run| ==> p < |run[k].replicas|
  {
    seq(|steps|, k requires 0 <= k < |steps| => PrepareEvent(c, run[k], run[k + 1], steps[k], p))
  }

  ghost function CommitEvents(c: Config, run: seq<System>, steps: seq<Step>, p: Node): seq<Event<Value>>
    requires |run| == |steps| + 1 && forall k :: 0 <= k < |run| ==> p < |run[k].replicas|
  {
    seq(|steps|, k requires 0 <= k < |steps| => CommitEvent(c, run[k], run[k + 1], steps[k], p))
  }

  // ------------------------------------------------------------------- every step

  /** How one step changes a tally. */
  ghost predicate Counts<X>(event: Event<X>, before: map<Node, X>, after: map<Node, X>) {
    match event
    case Vote(q, x) => after == if q in before then before else before[q := x]
    case Reset => after == map[]
    case Other => after == before
  }

  lemma DeliveryCounts(c: Config, s: System, s': System, p: Node, msg: Message, out: seq<Message>)
    requires c.n >= 1 && |s.replicas| == c.n && NextStep(c, s, s', Deliver(p, msg, out))
    ensures var step, r, r' := Deliver(p, msg, out), s.replicas[p], s'.replicas[p];
            && Counts(PrepareEvent(c, s, s', step, p), r.prepares, r'.prepares)
            && Counts(CommitEvent(c, s, s', step, p), r.commits, r'.commits)
  {
  }

  lemma StepCounts(c: Config, s: System, s': System, step: Step, p: Node)
    requires c.n >= 1 && |s.replicas| == c.n && NextStep(c, s, s', step) && p < c.n
    requires s.replicas[p].disk == DurablePart(s.replicas[p])
    ensures Counts(PrepareEvent(c, s, s', step, p), s.replicas[p].prepares, s'.replicas[p].prepares)
    ensures Counts(CommitEvent(c, s, s', step, p), s.replicas[p].commits, s'.replicas[p].commits)
  {
    SignedGrows(c, s, s', step);
    if step.p == p && step.Deliver? {
      DeliveryCounts(c, s, s', p, step.msg, step.out);
    }
  }

  ghost function PreparesOf(run: seq<System>, p: Node): seq<map<Node, (Value, Signature)>>
    requires forall k :: 0 <= k < |run| ==> p < |run[k].replicas|
  {
    seq(|run|, k requires 0 <= k < |run| => run[k].replicas[p].prepares)
  }

  ghost function CommitsOf(run: seq<System>, p: Node): seq<map<Node, Value>>
    requires forall k :: 0 <= k < |run| ==> p < |run[k].replicas|
  {
    seq(|run|, k requires 0 <= k < |run| => run[k].replicas[p].commits)
  }

  lemma RunTallies(c: Config, run: seq<System>, steps: seq<Step>, p: Node)
    requires c.n >= 1 && Steps(c, run, steps) && p < c.n
    ensures forall k :: 0 <= k < |run| ==> p < |run[k].replicas|
    ensures Tallied(PrepareEvents(c, run, steps, p), PreparesOf(run, p))
    ensures Tallied(CommitEvents(c, run, steps, p), CommitsOf(run, p))
  {
    forall k: nat | k < |steps|
      ensures TalliedAt(PrepareEvents(c, run, steps, p), PreparesOf(run, p), k)
      ensures TalliedAt(CommitEvents(c, run, steps, p), CommitsOf(run, p), k)
    {
      RunOwn(c, run, k, p);
      StepOfRun(c, run, steps, k);
      StepCounts(c, run[k], run[k + 1], steps[k], p);
    }
  }

  // --------------------------------------------------------------------- all runs

  /**
    Whose PREPAREs and COMMITs a correct member has counted: exactly those who have sent it
    one for its view since it entered it or last started, each with its first.
    */
  lemma FirstVotesCount(c: Config, run: seq<System>, steps: seq<Step>, i: nat, p: Node, q: Node)
    requires c.n >= 1 && Steps(c, run, steps) && i < |run| && c.Correct(p)
    ensures forall k :: 0 <= k < |run| ==> p < |run[k].replicas|
    ensures var r, events := run[i].replicas[p], PrepareEvents(c, run, steps, p);
            && (q in r.prepares <==> exists k: nat :: FirstVote(events, k, i, q))
            && forall k: nat :: FirstVote(events, k, i, q) ==> q in r.prepares && r.prepares[q] == events[k].vote
    ensures var r, events := run[i].replicas[p], CommitEvents(c, run, steps, p);
            && (q in r.commits <==> exists k: nat :: FirstVote(events, k, i, q))
            && forall k: nat :: FirstVote(events, k, i, q) ==> q in r.commits && r.commits[q] == events[k].vote
  {
    RunTallies(c, run, steps, p);
    FirstVotesExactly(PrepareEvents(c, run, steps, p), PreparesOf(run, p), i, q);
    FirstVotesExactly(CommitEvents(c, run, steps, p), CommitsOf(run, p), i, q);
  }

  // -------------------------------------------------------------------- only once

  /** In this step p broadcasts its vote for (v, m). */
  ghost predicate BroadcastsPrepare(step: Step, p: Node, v: nat, m: Value) {
    step.p == p && step.Deliver? && Seal(Prepare(p, v, m, Garbage)) in step.out
  }

  ghost predicate BroadcastsCommit(step: Step, p: Node) {
    step.p == p && step.Deliver? && exists x :: x in step.out && x.Commit?
  }

  lemma PreparesWhen(c: Config, p: Node, r: ReplicaState, msg: Message, r': ReplicaState, out: seq<Message>, v: nat,
                     m: Value)
    requires c.n >= 1 && Handles(c, p, r, msg, r', out) && Seal(Prepare(p, v, m, Garbage)) in out
    ensures v > r.view || (v == r.view && !r.preprepared)
  {
  }

  /** A correct member broadcasts one vote in a view, whatever happens to it. */
  lemma VotesOnce(c: Config, run: seq<System>, steps: seq<Step>, k: nat, p: Node, v: nat, m: Value, m': Value)
    requires c.Bounded() && Steps(c, run, steps) && k < |steps| && c.Correct(p)
    requires BroadcastsPrepare(steps[k], p, v, m)
    ensures !SentPrepare(run[k].signed, p, v, m')
  {
    RunSound(c, run, k);
    StepOfRun(c, run, steps, k);
    assert ReplicaInv(c, run[k].signed, p, run[k].replicas[p]);
    PreparesWhen(c, p, run[k].replicas[p], steps[k].msg, run[k + 1].replicas[p], steps[k].out, v, m);
  }

  lemma CommitsWhen(c: Config, p: Node, r: ReplicaState, msg: Message, r': ReplicaState, out: seq<Message>, x: Message)
    requires c.n >= 1 && Handles(c, p, r, msg, r', out) && x in out && x.Commit?
    ensures !r.sentcommit && r'.sentcommit
  {
  }

  lemma StepKeepsSent(c: Config, s: System, s': System, step: Step, p: Node)
    requires c.n >= 1 && |s.replicas| == c.n && NextStep(c, s, s', step) && p < c.n && s.replicas[p].sentcommit
    requires !Empties(s, s', step, p)
    ensures s'.replicas[p].sentcommit
  {
    SignedGrows(c, s, s', step);
  }

  ghost predicate KeepsSentAt(run: seq<System>, steps: seq<Step>, i: nat, p: Node) {
    && i < |steps| && i + 1 < |run| && p < |run[i].replicas| && p < |run[i + 1].replicas|
    && !Empties(run[i], run[i + 1], steps[i], p) && run[i].replicas[p].sentcommit
    ==> run[i + 1].replicas[p].sentcommit
  }

  lemma RunKeepsSentAt(c: Config, run: seq<System>, steps: seq<Step>, i: nat, p: Node)
    requires c.n >= 1 && Steps(c, run, steps) && p < c.n
    ensures KeepsSentAt(run, steps, i, p)
  {
    if i < |steps| && i + 1 < |run| && p < |run[i].replicas| && p < |run[i + 1].replicas|
       && !Empties(run[i], run[i + 1], steps[i], p) && run[i].replicas[p].sentcommit
    {
      StepOfRun(c, run, steps, i);
      StepKeepsSent(c, run[i], run[i + 1], steps[i], p);
    }
  }

  /** From time j to time k nothing has emptied p's tallies. */
  ghost predicate Stays(run: seq<System>, steps: seq<Step>, j: nat, k: nat, p: Node)
    requires k <= |steps| < |run| && forall i :: 0 <= i < |run| ==> p < |run[i].replicas|
  {
    forall i :: j <= i < k ==> !Empties(run[i], run[i + 1], steps[i], p)
  }

  lemma {:induction false} StaysSent(run: seq<System>, steps: seq<Step>, j: nat, k: nat, p: Node)
    requires j <= k <= |steps| < |run| && forall i :: 0 <= i < |run| ==> p < |run[i].replicas|
    requires Stays(run, steps, j, k, p) && run[j].replicas[p].sentcommit
    requires forall i: nat :: KeepsSentAt(run, steps, i, p)
    ensures run[k].replicas[p].sentcommit
    decreases k
  {
    if j < k {
      StaysSent(run, steps, j, k - 1, p);
      assert KeepsSentAt(run, steps, k - 1, p);
    }
  }

  /** And one COMMIT, unless it starts again in between. */
  lemma CommitsOnce(c: Config, run: seq<System>, steps: seq<Step>, j: nat, k: nat, p: Node)
    requires c.n >= 1 && Steps(c, run, steps) && j < k < |steps| && p < c.n && BroadcastsCommit(steps[j], p)
    requires (forall i :: 0 <= i < |run| ==> p < |run[i].replicas|) && Stays(run, steps, j + 1, k, p)
    ensures !BroadcastsCommit(steps[k], p)
  {
    StepOfRun(c, run, steps, j);
    StepOfRun(c, run, steps, k);
    var x :| x in steps[j].out && x.Commit?;
    CommitsWhen(c, p, run[j].replicas[p], steps[j].msg, run[j + 1].replicas[p], steps[j].out, x);
    forall i: nat
      ensures KeepsSentAt(run, steps, i, p)
    {
      RunKeepsSentAt(c, run, steps, i, p);
    }
    StaysSent(run, steps, j + 1, k, p);
    if y :| BroadcastsCommit(steps[k], p) && y in steps[k].out && y.Commit? {
      CommitsWhen(c, p, run[k].replicas[p], steps[k].msg, run[k + 1].replicas[p], steps[k].out, y);
    }
  }

  // --------------------------------------------------------------------- records

  /** Position i of a NEWVIEW's list is a complaint of q toward the view, signed by q. */
  predicate GoodRecord(c: Config, view: nat, vcs: seq<Complaint>, i: nat, q: Node) {
    && i < |vcs| && vcs[i].from == q && q < c.n && vcs[i].newview == view
    && vcs[i].sig == Signature(q, ViewChangeSt(view, vcs[i].claim))
  }

  ghost predicate FirstRecord(c: Config, view: nat, vcs: seq<Complaint>, i: nat, q: Node) {
    GoodRecord(c, view, vcs, i, q) && forall j: nat :: j < i ==> !GoodRecord(c, view, vcs, j, q)
  }

  lemma RecordsFront(c: Config, view: nat, vcs: seq<Complaint>, i: nat, q: Node)
    requires vcs != [] && i < |vcs| - 1
    ensures FirstRecord(c, view, vcs, i, q) <==> FirstRecord(c, view, vcs[..|vcs| - 1], i, q)
  {
    var front := vcs[..|vcs| - 1];
    assert forall j: nat :: j < |front| ==> (GoodRecord(c, view, vcs, j, q) <==> GoodRecord(c, view, front, j, q));
  }

  /** Of the list a replica takes, for each member, the first good record, and nothing else. */
  lemma {:induction false} RecordsTaken(c: Config, view: nat, vcs: seq<Complaint>, q: Node)
    ensures var valid := ValidRecords(c, view, vcs);
            && (q in valid <==> exists i: nat :: FirstRecord(c, view, vcs, i, q))
            && forall i: nat :: FirstRecord(c, view, vcs, i, q) ==>
                 q in valid && valid[q] == Wish(view, vcs[i].claim, vcs[i].sig)
  {
    if vcs != [] {
      var n := |vcs| - 1;
      var front := vcs[..n];
      RecordsTaken(c, view, front, q);
      forall i: nat | i < n
        ensures FirstRecord(c, view, vcs, i, q) <==> FirstRecord(c, view, front, i, q)
      {
        RecordsFront(c, view, vcs, i, q);
      }
      LastRecord(c, view, vcs, q);
      if GoodRecord(c, view, vcs, n, q) {
        var i := GoodHasFirst(c, view, vcs, n, q);
      }
    }
  }

  lemma {:induction false} GoodHasFirst(c: Config, view: nat, vcs: seq<Complaint>, j: nat, q: Node) returns (i: nat)
    requires GoodRecord(c, view, vcs, j, q)
    ensures i <= j && FirstRecord(c, view, vcs, i, q)
  {
    if k: nat :| k < j && GoodRecord(c, view, vcs, k, q) {
      i := GoodHasFirst(c, view, vcs, k, q);
    } else {
      i := j;
    }
  }

  lemma LastRecord(c: Config, view: nat, vcs: seq<Complaint>, q: Node)
    requires vcs != []
    ensures var n, valid := |vcs| - 1, ValidRecords(c, view, vcs[..|vcs| - 1]);
            (q in ValidRecords(c, view, vcs) <==> q in valid || GoodRecord(c, view, vcs, n, q))
            && (q in valid ==> ValidRecords(c, view, vcs)[q] == valid[q])
            && (q !in valid && GoodRecord(c, view, vcs, n, q) ==>
                  ValidRecords(c, view, vcs)[q] == Wish(view, vcs[n].claim, vcs[n].sig))
  {
  }
}
