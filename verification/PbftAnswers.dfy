/** When a correct member votes and toward which view it complains, by what it has signed before. */
module PbftAnswers {
  import opened Options
  import opened PbftReplica
  import opened PbftSystem
  import opened PbftSafety
  import opened PbftTheorems

  ghost predicate HasComplained(signed: set<Signature>, p: Node, nv: nat) {
    exists claim :: SentViewChange(signed, p, nv, claim)
  }

  /**
    What a replica remembers of its own votes and complaints it has really signed, and it expects nothing it has not
    voted for.
    */
  ghost predicate OwnInv(signed: set<Signature>, p: Node, r: ReplicaState) {
    && (r.highestVcSent > 0 ==> HasComplained(signed, p, r.highestVcSent))
    && (r.myPrepare.Some? ==> SentPrepare(signed, p, r.myPrepare.value.0, r.myPrepare.value.1))
    && (r.expected.Some? ==> r.preprepared)
    && (r.preprepared ==> r.myPrepare.Some? && r.myPrepare.value.0 == r.view)
    && r.disk == DurablePart(r)
  }

  lemma StillComplained(signed: set<Signature>, signed': set<Signature>, p: Node, nv: nat)
    requires HasComplained(signed, p, nv) && signed <= signed'
    ensures HasComplained(signed', p, nv)
  {
    var claim :| SentViewChange(signed, p, nv, claim);
    assert SentViewChange(signed', p, nv, claim);
  }

  lemma OwnGrows(signed: set<Signature>, signed': set<Signature>, p: Node, r: ReplicaState)
    requires OwnInv(signed, p, r) && signed <= signed'
    ensures OwnInv(signed', p, r)
  {
    if r.highestVcSent > 0 {
      StillComplained(signed, signed', p, r.highestVcSent);
    }
  }

  lemma Complaining(signed: set<Signature>, p: Node, nv: nat, claim: Option<Cert>, out: seq<Message>)
    requires Seal(ViewChange(p, nv, claim, Garbage)) in out
    ensures HasComplained(signed + Sigs(out), p, nv)
  {
    assert SentViewChange(signed + Sigs(out), p, nv, claim);
  }

  lemma Voting(signed: set<Signature>, p: Node, v: nat, m: Value)
    ensures SentPrepare(signed + Sigs([Seal(Prepare(p, v, m, Garbage))]), p, v, m)
  {
    assert Seal(Prepare(p, v, m, Garbage)) in [Seal(Prepare(p, v, m, Garbage))];
  }

  lemma ComplaintKeepsOwn(c: Config, signed: set<Signature>, p: Node, r: ReplicaState, from: Node, w: Wish,
                          r': ReplicaState, out: seq<Message>)
    requires c.n >= 1 && OwnInv(signed, p, r) && OnViewChange(c, p, r, from, w, r', out)
    ensures OwnInv(signed + Sigs(out), p, r')
  {
    OwnGrows(signed, signed + Sigs(out), p, r);
    if r'.highestVcSent != r.highestVcSent {
      assert out[0] in out;
      Complaining(signed, p, w.newview, r.prepared, out);
    }
  }

  lemma EnteringKeepsOwn(signed: set<Signature>, p: Node, r: ReplicaState, view: nat, proposal: Option<Value>)
    requires OwnInv(signed, p, r)
    ensures var (r', out) := EnterView(p, r, view, proposal); OwnInv(signed + Sigs(out), p, r')
  {
    var (r', out) := EnterView(p, r, view, proposal);
    OwnGrows(signed, signed + Sigs(out), p, r);
    if proposal.Some? {
      Voting(signed, p, view, proposal.value);
    }
  }

  lemma DeliveryKeepsOwn(c: Config, signed: set<Signature>, p: Node, r: ReplicaState, msg: Message, r': ReplicaState,
                         out: seq<Message>)
    requires c.n >= 1 && OwnInv(signed, p, r) && Handles(c, p, r, msg, r', out)
    ensures OwnInv(signed + Sigs(out), p, r')
  {
    OwnGrows(signed, signed + Sigs(out), p, r);
    if VerifyEnvelope(c, msg) {
      match msg {
        case PrePrepare(_, v, m, _) => Voting(signed, p, v, m);
        case Prepare(_, _, _, _) =>
        case Commit(_, _, _, _) =>
        case ViewChange(from, nv, claim, sig) =>
          ComplaintKeepsOwn(c, signed, p, r, from, Wish(nv, claim, sig), r', out);
        case NewView(_, view, _, proposal, _) =>
          if r'.view != r.view {
            EnteringKeepsOwn(signed, p, r, view, proposal);
          }
      }
    }
  }

  lemma TimeoutKeepsOwn(signed: set<Signature>, p: Node, r: ReplicaState)
    requires OwnInv(signed, p, r)
    ensures OwnInv(signed + Sigs(OnTimeout(p, r).1), p, OnTimeout(p, r).0)
  {
    var (r', out) := OnTimeout(p, r);
    OwnGrows(signed, signed + Sigs(out), p, r);
    if r.decided.None? {
      assert out[0] in out;
      Complaining(signed, p, r'.highestVcSent, r.prepared, out);
    }
  }

  lemma StepKeepsOwn(c: Config, s: System, s': System, step: Step)
    requires c.n >= 1 && |s.replicas| == c.n && NextStep(c, s, s', step)
    requires OwnInv(s.signed, step.p, s.replicas[step.p])
    ensures OwnInv(s'.signed, step.p, s'.replicas[step.p])
  {
    var p := step.p;
    var r := s.replicas[p];
    match step {
      case Deliver(_, msg, out) => DeliveryKeepsOwn(c, s.signed, p, r, msg, s'.replicas[p], out);
      case Timeout(_) => TimeoutKeepsOwn(s.signed, p, r);
      case Propose(_, _) => OwnGrows(s.signed, s'.signed, p, r);
      case Restart(_) =>
      case HalfEnter(_, _, _, _) =>
    }
  }

  lemma SignedGrows(c: Config, s: System, s': System, step: Step)
    requires c.n >= 1 && |s.replicas| == c.n && NextStep(c, s, s', step)
    ensures s.signed <= s'.signed && forall q: Node :: q < c.n && q != step.p ==> s'.replicas[q] == s.replicas[q]
  {
  }

  lemma NextKeepsOwn(c: Config, s: System, s': System, p: Node)
    requires c.n >= 1 && |s.replicas| == c.n && |s'.replicas| == c.n && Next(c, s, s') && p < c.n
    requires OwnInv(s.signed, p, s.replicas[p])
    ensures OwnInv(s'.signed, p, s'.replicas[p])
  {
    var step :| NextStep(c, s, s', step);
    SignedGrows(c, s, s', step);
    if step.p == p {
      StepKeepsOwn(c, s, s', step);
    } else {
      OwnGrows(s.signed, s'.signed, p, s.replicas[p]);
    }
  }

  lemma {:induction false} RunOwn(c: Config, run: seq<System>, i: nat, p: Node)
    requires c.n >= 1 && IsRun(c, run) && i < |run| && p < c.n
    ensures OwnInv(run[i].signed, p, run[i].replicas[p])
  {
    if i > 0 {
      RunOwn(c, run, i - 1, p);
      assert Next(c, run[i - 1], run[i - 1 + 1]);
      NextKeepsOwn(c, run[i - 1], run[i], p);
    }
  }

  // --------------------------------------------------------------------- all runs

  /**
    A correct member answers the PREPREPARE of view v's leader with its vote exactly when v
    is its view, it has voted for nothing in v, and it has complained toward no later view.
    */
  lemma VotesExactly(c: Config, run: seq<System>, i: nat, p: Node, v: nat, m: Value, out: seq<Message>)
    requires c.Bounded() && IsRun(c, run) && i + 1 < |run| && c.Correct(p)
    requires var msg := PrePrepare(c.LeaderOf(v), v, m, Signature(c.LeaderOf(v), PrePrepareSt(v, m)));
             NextStep(c, run[i], run[i + 1], Deliver(p, msg, out))
    ensures var before := run[i].signed;
            SentPrepare(run[i + 1].signed, p, v, m) <==>
              || SentPrepare(before, p, v, m)
              || (&& run[i].replicas[p].view == v
                  && (forall m' :: !SentPrepare(before, p, v, m'))
                  && (forall nv: nat :: HasComplained(before, p, nv) ==> nv <= v))
  {
    var s, r := run[i], run[i].replicas[p];
    RunOwn(c, run, i, p);
    RunSound(c, run, i);
    assert ReplicaInv(c, s.signed, p, r);
    HighestComplaint(c, s.signed, p, r, v);
    SentNothing(s.signed);
    SentOne(s.signed, p, Prepare(p, v, m, Garbage));
    Voting(s.signed, p, v, m);
  }

  lemma HighestComplaint(c: Config, signed: set<Signature>, p: Node, r: ReplicaState, v: nat)
    requires c.n >= 1 && ComplaintInv(c, signed, p, r) && OwnInv(signed, p, r)
    ensures r.highestVcSent <= v <==> forall nv: nat :: HasComplained(signed, p, nv) ==> nv <= v
  {
    if r.highestVcSent <= v {
      forall nv: nat | HasComplained(signed, p, nv)
        ensures nv <= v
      {
        var claim :| SentViewChange(signed, p, nv, claim);
      }
    }
  }

  /**
    When the timer fires, an undecided correct member complains, with the certificate it
    holds, toward the first view past its own and past all it has complained toward.
    */
  lemma ComplainsToward(c: Config, run: seq<System>, i: nat, p: Node) returns (nv: nat)
    requires c.Bounded() && IsRun(c, run) && i + 1 < |run| && c.Correct(p) && run[i].replicas[p].decided.None?
    requires NextStep(c, run[i], run[i + 1], Timeout(p))
    ensures SentViewChange(run[i + 1].signed, p, nv, run[i].replicas[p].prepared)
    ensures nv > run[i].replicas[p].view && forall w: nat :: HasComplained(run[i].signed, p, w) ==> w < nv
    ensures nv - 1 == run[i].replicas[p].view || HasComplained(run[i].signed, p, nv - 1)
  {
    var s, r := run[i], run[i].replicas[p];
    RunOwn(c, run, i, p);
    RunSound(c, run, i);
    assert ReplicaInv(c, s.signed, p, r);
    nv := run[i + 1].replicas[p].highestVcSent;
    HighestComplaint(c, s.signed, p, r, nv - 1);
    SentOne(s.signed, p, ViewChange(p, nv, r.prepared, Garbage));
    assert OnTimeout(p, r).1[0] in OnTimeout(p, r).1;
  }
}
