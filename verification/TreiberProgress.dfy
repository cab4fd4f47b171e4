/**
  The stack makes progress: an operation starts over only when another has taken effect since
  it loaded the top, and a thread that runs alone always finishes.
  */
module TreiberProgress {
  import opened Options
  import opened Treiber

  // ------------------------------------------------------------------- alone

  /** How many steps a thread that runs alone has left. */
  function Left(s: System, pc: Pc): nat {
    match pc
    case Idle => 0
    case PushLoad(_) => 3
    case PushLink(_, seen) => if s.top == seen then 2 else 5
    case PushCas(_, seen) => if s.top == seen then 1 else 4
    case PopLoad => if s.top.None? then 1 else 4
    case PopRead(at) => if s.top == Some(at) then 3 else 6
    case PopCas(at, _) => if s.top == Some(at) then 2 else 5
    case PopValue(_) => 1
  }

  lemma OneStepLess(s: System, s': System, t: Tid)
    requires t < |s.pcs| && RunStep(s, t) == Some(s')
    ensures t < |s'.pcs| && Left(s', s'.pcs[t]) < Left(s, s.pcs[t])
    ensures s'.pcs == s.pcs[t := s'.pcs[t]] && s'.calls == s.calls
  {
  }

  lemma RunOn(run: seq<System>, s: System, t: Tid) returns (more: seq<System>)
    requires IsRun(run) && t < |run[|run| - 1].pcs| && RunStep(run[|run| - 1], t) == Some(s)
    ensures IsRun(more) && more == run + [s]
  {
    more := run + [s];
    forall i | 0 <= i < |more| - 1
      ensures Next(more[i], more[i + 1])
    {
      if i < |run| - 1 {
        assert Next(run[i], run[i + 1]);
      } else {
        assert NextStep(more[i], more[i + 1], t, Run);
      }
    }
  }

  /** From wherever a run has got to, thread t alone finishes its operation, and nobody else moves. */
  lemma {:induction false} AloneFinishes(run: seq<System>, t: Tid) returns (more: seq<System>)
    requires IsRun(run) && t < |run[|run| - 1].pcs|
    ensures IsRun(more) && |run| <= |more| && more[..|run|] == run
    ensures var s, s' := run[|run| - 1], more[|more| - 1];
            && s'.pcs == s.pcs[t := Idle] && s'.calls == s.calls
            && |Of(t, s'.returned)| == |Of(t, s'.calls)| == |Of(t, s'.effects)|
    decreases Left(run[|run| - 1], run[|run| - 1].pcs[t])
  {
    var last := |run| - 1;
    var s := run[last];
    if s.pcs[t] == Idle {
      more := run;
      ResultsReturned(run, last, t);
    } else {
      NoWildAccess(run, last, t);
      var s' := RunStep(s, t).value;
      OneStepLess(s, s', t);
      var next := RunOn(run, s', t);
      more := AloneFinishes(next, t);
      assert more[..|run|] == more[..|next|][..|run|];
    }
  }

  // --------------------------------------------------------------- with rivals

  /** The thread has loaded the top, and this is what it saw. */
  predicate Loaded(pc: Pc) {
    pc.PushLink? || pc.PushCas? || pc.PopRead? || pc.PopCas?
  }

  function Saw(pc: Pc): Option<Addr>
    requires Loaded(pc)
  {
    match pc
    case PushLink(_, seen) => seen
    case PushCas(_, seen) => seen
    case PopRead(at) => Some(at)
    case PopCas(at, _) => Some(at)
  }

  /** Since time a, when it loaded the top, the thread has been at the same attempt. */
  ghost predicate SameAttempt(run: seq<System>, a: nat, b: nat, t: Tid)
    requires b < |run|
  {
    && a <= b
    && forall k :: a <= k <= b ==> t < |run[k].pcs| && Loaded(run[k].pcs[t]) && Saw(run[k].pcs[t]) == run[a].top
  }

  lemma StepAttempts(s: System, s': System, u: Tid, step: Step, t: Tid)
    requires NextStep(s, s', u, step) && t < |s'.pcs| && Loaded(s'.pcs[t])
    ensures t < |s.pcs|
    ensures || Saw(s'.pcs[t]) == s'.top
            || (Loaded(s.pcs[t]) && Saw(s.pcs[t]) == Saw(s'.pcs[t]))
  {
  }

  /** Whoever has loaded the top did so at some time, and has been at it since. */
  lemma {:induction false} AttemptBegan(run: seq<System>, b: nat, t: Tid) returns (a: nat)
    requires IsRun(run) && b < |run| && t < |run[b].pcs| && Loaded(run[b].pcs[t])
    ensures SameAttempt(run, a, b, t)
  {
    if Saw(run[b].pcs[t]) == run[b].top {
      a := b;
    } else {
      assert b > 0;
      assert Next(run[b - 1], run[b - 1 + 1]);
      var u, step :| NextStep(run[b - 1], run[b], u, step);
      StepAttempts(run[b - 1], run[b], u, step, t);
      a := AttemptBegan(run, b - 1, t);
    }
  }

  lemma StepMovesTop(s: System, s': System, u: Tid, step: Step)
    requires NextStep(s, s', u, step)
    ensures |s.effects| <= |s'.effects| && (|s.effects| == |s'.effects| ==> s'.top == s.top)
  {
  }

  /** The top moves only with an operation that takes effect. */
  lemma {:induction false} TopMoves(run: seq<System>, a: nat, b: nat)
    requires IsRun(run) && a <= b < |run|
    ensures |run[a].effects| <= |run[b].effects|
    ensures |run[a].effects| == |run[b].effects| ==> run[b].top == run[a].top
    decreases b
  {
    if a < b {
      TopMoves(run, a, b - 1);
      assert Next(run[b - 1], run[b - 1 + 1]);
      var u, step :| NextStep(run[b - 1], run[b], u, step);
      StepMovesTop(run[b - 1], run[b], u, step);
    }
  }

  /** Lock freedom: a thread starts over only when another's operation took effect since it loaded the top. */
  lemma RetryMeansRival(run: seq<System>, b: nat, t: Tid) returns (a: nat)
    requires IsRun(run) && b + 1 < |run| && NextStep(run[b], run[b + 1], t, Run)
    requires run[b].pcs[t].PushCas? || run[b].pcs[t].PopCas?
    requires run[b + 1].pcs[t].PushLoad? || run[b + 1].pcs[t].PopLoad?
    ensures SameAttempt(run, a, b, t) && |run[a].effects| < |run[b].effects|
    ensures Of(t, run[b].effects) == Of(t, run[a].effects)
  {
    a := AttemptBegan(run, b, t);
    TopMoves(run, a, b);
    OwnEffectsStay(run, a, b, t);
  }

  lemma {:induction false} StepKeepsOthersEffects(s: System, s': System, u: Tid, step: Step, t: Tid)
    requires NextStep(s, s', u, step) && t < |s.pcs| && t < |s'.pcs| && Loaded(s.pcs[t]) && Loaded(s'.pcs[t])
    ensures Of(t, s'.effects) == Of(t, s.effects)
  {
    if s'.effects != s.effects {
      var last := s'.effects[|s.effects|];
      assert s'.effects == s.effects + [last];
      assert s'.effects[..|s'.effects| - 1] == s.effects;
    }
  }

  ghost predicate QuietAt(run: seq<System>, k: nat, t: Tid) {
    && k + 1 < |run| && t < |run[k].pcs| && t < |run[k + 1].pcs| && Loaded(run[k].pcs[t]) && Loaded(run[k + 1].pcs[t])
    ==> Of(t, run[k + 1].effects) == Of(t, run[k].effects)
  }

  lemma NextIsQuiet(run: seq<System>, k: nat, t: Tid)
    requires IsRun(run)
    ensures QuietAt(run, k, t)
  {
    if k + 1 < |run| && t < |run[k].pcs| && t < |run[k + 1].pcs| && Loaded(run[k].pcs[t]) && Loaded(run[k + 1].pcs[t]) {
      assert Next(run[k], run[k + 1]);
      var u, step :| NextStep(run[k], run[k + 1], u, step);
      StepKeepsOthersEffects(run[k], run[k + 1], u, step, t);
    }
  }

  lemma {:induction false} QuietOver(run: seq<System>, a: nat, b: nat, t: Tid)
    requires b < |run| && SameAttempt(run, a, b, t) && forall k: nat :: QuietAt(run, k, t)
    ensures Of(t, run[b].effects) == Of(t, run[a].effects)
    decreases b
  {
    if a < b {
      QuietOver(run, a, b - 1, t);
      assert QuietAt(run, b - 1, t);
    }
  }

  lemma OwnEffectsStay(run: seq<System>, a: nat, b: nat, t: Tid)
    requires IsRun(run) && b < |run| && SameAttempt(run, a, b, t)
    ensures Of(t, run[b].effects) == Of(t, run[a].effects)
  {
    forall k: nat
      ensures QuietAt(run, k, t)
    {
      NextIsQuiet(run, k, t);
    }
    QuietOver(run, a, b, t);
  }
}
