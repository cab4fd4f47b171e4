/** Where decided values come from. */
module PbftValidity {
  import opened Options
  import opened PbftReplica
  import opened PbftSystem
  import opened PbftQuorums
  import opened PbftSafety
  import opened PbftTheorems

  /** Some view's leader has signed a PREPREPARE for m. */
  ghost predicate Proposed(c: Config, signed: set<Signature>, m: Value)
    requires c.n >= 1
  {
    exists w :: Signature(c.LeaderOf(w), PrePrepareSt(w, m)) in signed
  }

  ghost predicate PreparesProposed(c: Config, signed: set<Signature>)
    requires c.n >= 1
  {
    forall p: Node, v: nat, m :: c.Correct(p) && SentPrepare(signed, p, v, m) ==> Proposed(c, signed, m)
  }

  lemma EvidenceProposed(c: Config, s: System, r: ReplicaState, r': ReplicaState, m: Value)
    requires c.Bounded() && Sound(c, s) && Entered(c, s, r, r', Some(m)) && PreparesProposed(c, s.signed)
    ensures Proposed(c, s.signed, m)
  {
    var wishes: map<Node, Wish>, best: Option<Cert> :|
      Evidence(c, s.signed, r'.view, wishes) && Selects(c, wishes, r'.view, best) && ValueOf(best) == Some(m);
    var q: Node :| q in Claimants(c, wishes, r'.view) && wishes[q].claim == best;
    assert GoodWish(c, s.signed, q, wishes[q]);
    GoodCertIsCertifiable(c, s.signed, best.value);
    var p := CertifiableHasPreparer(c, s.signed, best.value.view, m);
  }

  /** A PREPARE sent on a PREPREPARE is for the value its leader signed. */
  lemma PrePrepareProposed(c: Config, s: System, p: Node, r: ReplicaState, msg: Message, v: nat, m: Value)
    requires c.Bounded() && c.faulty == {} && msg.PrePrepare? && Unforged(c, s.signed, msg) && VerifyEnvelope(c, msg)
    requires SentPrepare(s.signed + Sigs(OnPrePrepare(c, p, r, msg.from, msg.view, msg.m).1), p, v, m)
    requires !SentPrepare(s.signed, p, v, m)
    ensures Proposed(c, s.signed, m)
  {
    SentNothing(s.signed);
    SentOne(s.signed, p, Prepare(p, msg.view, msg.m, Garbage));
    assert msg.from == c.LeaderOf(msg.view) && m == msg.m;
    assert Signature(c.LeaderOf(msg.view), PrePrepareSt(msg.view, m)) in s.signed;
  }

  lemma NewPrepareProposed(c: Config, s: System, s': System, step: Step, v: nat, m: Value)
    requires c.Bounded() && c.faulty == {} && Sound(c, s) && NextStep(c, s, s', step) && PreparesProposed(c, s.signed)
    requires SentPrepare(s'.signed, step.p, v, m) && !SentPrepare(s.signed, step.p, v, m)
    ensures Proposed(c, s.signed, m)
  {
    var p := step.p;
    var r, r' := s.replicas[p], s'.replicas[p];
    SentNothing(s.signed);
    match step {
      case Timeout(_) => SentOne(s.signed, p, ViewChange(p, r'.highestVcSent, r.prepared, Garbage));
      case Propose(_, m') => SentOne(s.signed, p, PrePrepare(p, r.view, m', Garbage));
      case Restart(_) =>
      case HalfEnter(_, _, _, _) =>
      case Deliver(_, msg, out) => DeliveryProposed(c, s, p, r, msg, r', out, v, m);
    }
  }

  lemma DeliveryProposed(c: Config, s: System, p: Node, r: ReplicaState, msg: Message, r': ReplicaState,
                         out: seq<Message>,
                         v: nat, m: Value)
    requires c.Bounded() && c.faulty == {} && Sound(c, s) && PreparesProposed(c, s.signed)
    requires Unforged(c, s.signed, msg) && Handles(c, p, r, msg, r', out)
    requires SentPrepare(s.signed + Sigs(out), p, v, m) && !SentPrepare(s.signed, p, v, m)
    ensures Proposed(c, s.signed, m)
  {
    SentNothing(s.signed);
    match msg {
      case PrePrepare(_, _, _, _) => PrePrepareProposed(c, s, p, r, msg, v, m);
      case Prepare(_, v', m', _) => SentOne(s.signed, p, Commit(p, v', m', Garbage));
      case Commit(_, _, _, _) =>
      case ViewChange(from, nv, claim, sig) =>
        ComplaintsPrepareNothing(c, s.signed, p, r, from, Wish(nv, claim, sig), r', out);
      case NewView(from, view, vcs, proposal, _) =>
        NewViewPrepares(c, s, p, r, from, view, vcs, proposal, r', out);
        EvidenceProposed(c, s, r, r', m);
    }
  }

  lemma StepProposes(c: Config, s: System, s': System, step: Step)
    requires c.Bounded() && c.faulty == {} && Sound(c, s) && NextStep(c, s, s', step) && s.signed <= s'.signed
    requires PreparesProposed(c, s.signed)
    requires Gated(s.signed, s'.signed, step.p, s.replicas[step.p], s'.replicas[step.p])
    ensures PreparesProposed(c, s'.signed)
  {
    forall p: Node, v: nat, m | c.Correct(p) && SentPrepare(s'.signed, p, v, m)
      ensures Proposed(c, s'.signed, m)
    {
      VoteProposed(c, s, s', step, p, v, m);
      var w :| Signature(c.LeaderOf(w), PrePrepareSt(w, m)) in s.signed;
      assert Signature(c.LeaderOf(w), PrePrepareSt(w, m)) in s'.signed;
    }
  }

  lemma VoteProposed(c: Config, s: System, s': System, step: Step, p: Node, v: nat, m: Value)
    requires c.Bounded() && c.faulty == {} && Sound(c, s) && NextStep(c, s, s', step) && PreparesProposed(c, s.signed)
    requires Gated(s.signed, s'.signed, step.p, s.replicas[step.p], s'.replicas[step.p])
    requires c.Correct(p) && SentPrepare(s'.signed, p, v, m)
    ensures Proposed(c, s.signed, m)
  {
    if p != step.p {
      OthersSilent(s.signed, s'.signed, step.p, p);
    }
    if !SentPrepare(s.signed, p, v, m) {
      NewPrepareProposed(c, s, s', step, v, m);
    }
  }

  lemma NextProposes(c: Config, s: System, s': System)
    requires c.Bounded() && c.faulty == {} && Sound(c, s) && Next(c, s, s') && PreparesProposed(c, s.signed)
    ensures PreparesProposed(c, s'.signed)
  {
    var step :| NextStep(c, s, s', step);
    StepKeepsReplica(c, s, s', step);
    StepProposes(c, s, s', step);
  }

  ghost predicate KeepsAt(c: Config, run: seq<System>, k: nat)
    requires c.n >= 1
  {
    k + 1 < |run| && PreparesProposed(c, run[k].signed) ==> PreparesProposed(c, run[k + 1].signed)
  }

  lemma RunKeepsAt(c: Config, run: seq<System>, k: nat)
    requires c.Bounded() && c.faulty == {} && IsRun(c, run)
    ensures KeepsAt(c, run, k)
  {
    if k + 1 < |run| && PreparesProposed(c, run[k].signed) {
      RunSound(c, run, k);
      NextProposes(c, run[k], run[k + 1]);
    }
  }

  lemma {:induction false} KeepsUpTo(c: Config, run: seq<System>, i: nat)
    requires c.n >= 1 && i < |run| && PreparesProposed(c, run[0].signed) && forall k: nat :: KeepsAt(c, run, k)
    ensures PreparesProposed(c, run[i].signed)
  {
    if i > 0 {
      KeepsUpTo(c, run, i - 1);
      assert KeepsAt(c, run, i - 1);
    }
  }

  lemma RunProposes(c: Config, run: seq<System>, i: nat)
    requires c.Bounded() && c.faulty == {} && IsRun(c, run) && i < |run|
    ensures PreparesProposed(c, run[i].signed)
  {
    forall k: nat
      ensures KeepsAt(c, run, k)
    {
      RunKeepsAt(c, run, k);
    }
    KeepsUpTo(c, run, i);
  }

  /** Weak validity: when no member is faulty, a decided value was proposed by the leader of some view. */
  lemma WeakValidity(c: Config, run: seq<System>, i: nat, p: Node)
    requires c.Bounded() && c.faulty == {} && IsRun(c, run) && i < |run| && c.Correct(p)
    requires run[i].replicas[p].decided.Some?
    ensures Proposed(c, run[i].signed, run[i].replicas[p].decided.value)
  {
    RunSound(c, run, i);
    RunProposes(c, run, i);
    var m := run[i].replicas[p].decided.value;
    assert DecideInv(c, run[i].signed, run[i].replicas[p]);
    var v :| Committed(c, run[i].signed, v, m);
    var committers := Committers(c, run[i].signed, v, m);
    var q := VoteQuorumsMeet(c, committers, committers);
    assert CertInv(c, run[i].signed, q, run[i].replicas[q]);
    var x := CertifiableHasPreparer(c, run[i].signed, v, m);
  }
}
