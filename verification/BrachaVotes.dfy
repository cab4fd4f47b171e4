/** What a correct member counts: of each other member the first ECHO and the first READY it handled. */
module BrachaVotes {
  import opened Options
  import opened Tallies
  import opened BrachaNode
  import opened BrachaSafety

  ghost predicate Steps(c: Config, run: seq<System>, steps: seq<Step>) {
    && IsRun(c, run) && |steps| + 1 == |run|
    && forall k :: 0 <= k < |steps| ==> NextStep(c, run[k], run[k + 1], steps[k])
  }

  lemma {:induction false} EveryRunHasSteps(c: Config, run: seq<System>, k: nat) returns (steps: seq<Step>)
    requires IsRun(c, run) && k < |run|
    ensures |steps| == k && forall j :: 0 <= j < k ==> NextStep(c, run[j], run[j + 1], steps[j])
  {
    steps := [];
    if k > 0 {
      var front := EveryRunHasSteps(c, run, k - 1);
      assert Next(c, run[k - 1], run[k - 1 + 1]);
      var step :| NextStep(c, run[k - 1], run[k], step);
      steps := front + [step];
    }
  }

  /** The step hands p a message of this kind, signed by the member it names. */
  ghost function VoteEvent(c: Config, step: Step, kind: Kind, p: Node): Event<Value> {
    if step.Deliver? && step.p == p && step.msg.kind == kind && step.msg.from < c.n
       && step.msg.sig == Signature(step.msg.from, kind, step.msg.m)
    then Vote(step.msg.from, step.msg.m) else Other
  }

  ghost function VoteEvents(c: Config, steps: seq<Step>, kind: Kind, p: Node): seq<Event<Value>> {
    seq(|steps|, k requires 0 <= k < |steps| => VoteEvent(c, steps[k], kind, p))
  }

  function TallyOf(s: System, kind: Kind, p: Node): map<Node, Value>
    requires p < |s.nodes|
  {
    if kind.EchoKind? then s.nodes[p].echos else s.nodes[p].readys
  }

  ghost function TalliesOf(run: seq<System>, kind: Kind, p: Node): seq<map<Node, Value>>
    requires forall k :: 0 <= k < |run| ==> p < |run[k].nodes|
  {
    seq(|run|, k requires 0 <= k < |run| => TallyOf(run[k], kind, p))
  }

  lemma StepCounts(c: Config, s: System, s': System, step: Step, kind: Kind, p: Node)
    requires Shaped(c, s) && Shaped(c, s') && NextStep(c, s, s', step) && p < c.n && !kind.SendKind?
    ensures var before, after := TallyOf(s, kind, p), TallyOf(s', kind, p);
            match VoteEvent(c, step, kind, p)
            case Vote(q, x) => after == if q in before then before else before[q := x]
            case _ => after == before
  {
  }

  lemma RunTallies(c: Config, run: seq<System>, steps: seq<Step>, kind: Kind, p: Node)
    requires Steps(c, run, steps) && p < c.n && !kind.SendKind?
    ensures forall k :: 0 <= k < |run| ==> p < |run[k].nodes|
    ensures Tallied(VoteEvents(c, steps, kind, p), TalliesOf(run, kind, p))
  {
    forall k: nat | k < |steps|
      ensures TalliedAt(VoteEvents(c, steps, kind, p), TalliesOf(run, kind, p), k)
    {
      assert NextStep(c, run[k], run[k + 1], steps[k]);
      StepCounts(c, run[k], run[k + 1], steps[k], kind, p);
    }
  }

  /** Whose ECHOs and READYs a member has counted: exactly those who have sent it one, each with its first. */
  lemma FirstVotesCount(c: Config, run: seq<System>, steps: seq<Step>, i: nat, kind: Kind, p: Node, q: Node)
    requires Steps(c, run, steps) && i < |run| && c.Correct(p) && !kind.SendKind?
    ensures var tally, events := TallyOf(run[i], kind, p), VoteEvents(c, steps, kind, p);
            && (q in tally <==> exists k: nat :: FirstVote(events, k, i, q))
            && forall k: nat :: FirstVote(events, k, i, q) ==> q in tally && tally[q] == events[k].vote
  {
    RunTallies(c, run, steps, kind, p);
    FirstVotesExactly(VoteEvents(c, steps, kind, p), TalliesOf(run, kind, p), i, q);
  }

  // -------------------------------------------------------------------- only once

  /** What p broadcasts and delivers in a step. */
  ghost function EffectOf(c: Config, s: System, step: Step, p: Node): Effect
    requires Shaped(c, s) && p < c.n
  {
    if step.Deliver? && step.p == p then Handle(c, p, s.nodes[p], step.msg) else Effect(s.nodes[p], [], None)
  }

  ghost predicate Broadcasts(e: Effect, kind: Kind) {
    exists x :: x in e.out && x.kind == kind
  }

  /** The member has its ECHO, its READY or its delivery behind it. */
  predicate Done(r: NodeState, kind: Kind) {
    match kind
    case SendKind => r.delivered
    case EchoKind => r.sentecho
    case ReadyKind => r.sentready
  }

  /** An ECHO, a READY, or (as SendKind) a delivery. */
  ghost predicate Does(e: Effect, kind: Kind) {
    if kind.SendKind? then e.output.Some? else Broadcasts(e, kind)
  }

  lemma StepDoes(c: Config, s: System, s': System, step: Step, kind: Kind, p: Node)
    requires Shaped(c, s) && Shaped(c, s') && NextStep(c, s, s', step) && p < c.n
    ensures Done(s.nodes[p], kind) ==> Done(s'.nodes[p], kind)
    ensures Does(EffectOf(c, s, step, p), kind) ==> !Done(s.nodes[p], kind) && Done(s'.nodes[p], kind)
  {
  }

  lemma {:induction false} StaysDone(c: Config, run: seq<System>, steps: seq<Step>, j: nat, k: nat, kind: Kind, p: Node)
    requires Steps(c, run, steps) && j <= k < |run| && p < c.n && Done(run[j].nodes[p], kind)
    ensures Done(run[k].nodes[p], kind)
    decreases k
  {
    if j < k {
      StaysDone(c, run, steps, j, k - 1, kind, p);
      assert NextStep(c, run[k - 1], run[k - 1 + 1], steps[k - 1]);
      StepDoes(c, run[k - 1], run[k], steps[k - 1], kind, p);
    }
  }

  /** No duplication: a member broadcasts one ECHO, broadcasts one READY and delivers once in the whole run. */
  lemma OnlyOnce(c: Config, run: seq<System>, steps: seq<Step>, j: nat, k: nat, kind: Kind, p: Node)
    requires Steps(c, run, steps) && j < k < |steps| && p < c.n
    requires Does(EffectOf(c, run[j], steps[j], p), kind)
    ensures !Does(EffectOf(c, run[k], steps[k], p), kind)
  {
    assert NextStep(c, run[j], run[j + 1], steps[j]) && NextStep(c, run[k], run[k + 1], steps[k]);
    StepDoes(c, run[j], run[j + 1], steps[j], kind, p);
    StaysDone(c, run, steps, j + 1, k, kind, p);
    StepDoes(c, run[k], run[k + 1], steps[k], kind, p);
  }
}
