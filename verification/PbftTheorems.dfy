/** The invariant over whole runs, and what follows: agreement, integrity, lock-in, validity. */
module PbftTheorems {
  import opened Options
  import opened Quorums
  import opened PbftReplica
  import opened PbftSystem
  import opened PbftQuorums
  import opened PbftSafety

  // -------------------------------------------------------------- one whole step

  lemma StepKeepsReplica(c: Config, s: System, s': System, step: Step)
    requires c.Bounded() && Sound(c, s) && NextStep(c, s, s', step)
    ensures ReplicaInv(c, s'.signed, step.p, s'.replicas[step.p])
    ensures Gated(s.signed, s'.signed, step.p, s.replicas[step.p], s'.replicas[step.p])
  {
    var p := step.p;
    var r, r' := s.replicas[p], s'.replicas[p];
    SentNothing(s.signed);
    match step {
      case Timeout(_) => TimeoutKeeps(c, s.signed, p, r);
      case Propose(_, m) => ProposeKeeps(c, s.signed, p, r, m);
      case Restart(_) => RestartKeeps(c, s.signed, p, r);
      case HalfEnter(_, msg, _, _) => HalfEnterKeeps(c, s.signed, p, r, msg.view, msg.proposal);
      case Deliver(_, msg, out) =>
        assert ReplicaInv(c, s.signed, p, r);
        DeliverKeeps(c, s.signed, p, r, msg, r', out);
    }
  }

  lemma DeliverKeeps(c: Config, signed: set<Signature>, p: Node, r: ReplicaState, msg: Message,
                     r': ReplicaState, out: seq<Message>)
    requires c.Bounded() && ReplicaInv(c, signed, p, r) && Unforged(c, signed, msg) && Handles(c, p, r, msg, r', out)
    ensures ReplicaInv(c, signed + Sigs(out), p, r') && Gated(signed, signed + Sigs(out), p, r, r')
  {
    SentNothing(signed);
    if VerifyEnvelope(c, msg) {
      match msg {
        case PrePrepare(from, v, m, _) => PrePrepareKeeps(c, signed, p, r, from, v, m);
        case Prepare(from, v, m, sig) => PrepareKeeps(c, signed, p, r, from, v, m, sig, r', out);
        case Commit(from, v, m, sig) => CommitKeeps(c, signed, p, r, from, v, m, sig);
        case ViewChange(from, nv, claim, sig) =>
          ViewChangeKeeps(c, signed, p, r, from, Wish(nv, claim, sig), r', out);
        case NewView(from, view, vcs, proposal, _) =>
          if r'.view != r.view {
            NewViewKeeps(c, signed, p, r, view, proposal);
          }
      }
    }
  }

  lemma StepKeepsSound(c: Config, s: System, s': System, step: Step)
    requires c.Bounded() && Sound(c, s) && NextStep(c, s, s', step)
    ensures Sound(c, s')
  {
    StepKeepsReplica(c, s, s', step);
    forall q: Node | c.Correct(q)
      ensures ReplicaInv(c, s'.signed, q, s'.replicas[q])
    {
      if q != step.p {
        OthersKeep(c, s.signed, s'.signed, step.p, q, s.replicas[q]);
      }
    }
  }

  lemma PossibleShrinks(c: Config, s: System, s': System, p: Node, v: nat, m: Value)
    requires c.n >= 1 && |s.replicas| == c.n && |s'.replicas| == c.n && c.Correct(p)
    requires s'.replicas == s.replicas[p := s'.replicas[p]]
    requires Gated(s.signed, s'.signed, p, s.replicas[p], s'.replicas[p])
    ensures CommitPossible(c, s', v, m) ==> CommitPossible(c, s, v, m)
  {
    forall q | q in PossibleCommitters(c, s', v, m)
      ensures q in PossibleCommitters(c, s, v, m)
    {
      if q != p {
        OthersSilent(s.signed, s'.signed, p, q);
      }
    }
    SubsetSize(PossibleCommitters(c, s', v, m), PossibleCommitters(c, s, v, m));
  }

  lemma {:induction false} RecordsAreGood(c: Config, signed: set<Signature>, view: nat, vcs: seq<Complaint>)
    requires forall i :: 0 <= i < |vcs| ==> Known(c, signed, vcs[i].sig) && ClaimKnown(c, signed, vcs[i].claim)
    ensures forall q :: q in ValidRecords(c, view, vcs) ==>
              GoodWish(c, signed, q, ValidRecords(c, view, vcs)[q]) && ValidRecords(c, view, vcs)[q].newview == view
  {
    if vcs != [] {
      RecordsAreGood(c, signed, view, vcs[..|vcs| - 1]);
    }
  }

  /** What a replica accepts as evidence for a view is evidence for it. */
  lemma RecordsAreEvidence(c: Config, signed: set<Signature>, view: nat, vcs: seq<Complaint>)
    requires c.n >= 1
    requires forall i :: 0 <= i < |vcs| ==> Known(c, signed, vcs[i].sig) && ClaimKnown(c, signed, vcs[i].claim)
    requires |ValidRecords(c, view, vcs)| >= 2 * c.F() + 1
    ensures Evidence(c, signed, view, ValidRecords(c, view, vcs))
  {
    RecordsAreGood(c, signed, view, vcs);
    var valid := ValidRecords(c, view, vcs);
    assert Wishers(valid, view) == valid.Keys;
  }

  /** The replica entered a later view on evidence that selects `proposal`. */
  ghost predicate Entered(c: Config, s: System, r: ReplicaState, r': ReplicaState, proposal: Option<Value>)
    requires c.n >= 1
  {
    && r'.view > r.view
    && exists wishes, best :: Evidence(c, s.signed, r'.view, wishes) && Selects(c, wishes, r'.view, best)
                              && ValueOf(best) == proposal
  }

  /** Where a new PREPARE can come from, and when a replica can be without one. */
  lemma HowPrepared(c: Config, s: System, s': System, step: Step)
    requires c.n >= 1 && Sound(c, s) && NextStep(c, s, s', step)
    ensures var p := step.p; var r, r' := s.replicas[p], s'.replicas[p];
            && (forall w: nat, m :: SentPrepare(s'.signed, p, w, m) ==>
                 || SentPrepare(s.signed, p, w, m)
                 || (w == r.view && !r.preprepared)
                 || (w == r'.view && Entered(c, s, r, r', Some(m))))
            && (!r'.preprepared ==>
                 (r'.view == r.view && !r.preprepared) || Entered(c, s, r, r', None) || (p, r'.view) in s'.half)
  {
    var p := step.p;
    var r, r' := s.replicas[p], s'.replicas[p];
    assert ReplicaInv(c, s.signed, p, s.replicas[p]);
    SentNothing(s.signed);
    match step {
      case Timeout(_) =>
        if r.decided.None? {
          SentOne(s.signed, p, ViewChange(p, r'.highestVcSent, r.prepared, Garbage));
        }
      case Propose(_, m) => SentOne(s.signed, p, PrePrepare(p, r.view, m, Garbage));
      case Restart(_) =>
      case HalfEnter(_, _, _, _) =>
      case Deliver(_, msg, out) => DeliveryPrepares(c, s, p, r, msg, r', out);
    }
  }

  lemma DeliveryPrepares(c: Config, s: System, p: Node, r: ReplicaState, msg: Message, r': ReplicaState,
                         out: seq<Message>)
    requires c.n >= 1 && Unforged(c, s.signed, msg) && Handles(c, p, r, msg, r', out)
    ensures forall w: nat, m :: SentPrepare(s.signed + Sigs(out), p, w, m) ==>
              || SentPrepare(s.signed, p, w, m)
              || (w == r.view && !r.preprepared)
              || (w == r'.view && Entered(c, s, r, r', Some(m)))
    ensures !r'.preprepared ==> (r'.view == r.view && !r.preprepared) || Entered(c, s, r, r', None)
  {
    SentNothing(s.signed);
    if VerifyEnvelope(c, msg) {
      match msg {
        case PrePrepare(from, v, m, _) => SentOne(s.signed, p, Prepare(p, v, m, Garbage));
        case Prepare(from, v, m, sig) => SentOne(s.signed, p, Commit(p, v, m, Garbage));
        case Commit(from, v, m, sig) =>
        case ViewChange(from, nv, claim, sig) =>
          ComplaintsPrepareNothing(c, s.signed, p, r, from, Wish(nv, claim, sig), r', out);
        case NewView(from, view, vcs, proposal, _) =>
          NewViewPrepares(c, s, p, r, from, view, vcs, proposal, r', out);
      }
    }
  }

  lemma ComplaintsOnly(c: Config, p: Node, r: ReplicaState, from: Node, w: Wish, r': ReplicaState, out: seq<Message>)
    requires c.n >= 1 && OnViewChange(c, p, r, from, w, r', out)
    ensures forall k :: 0 <= k < |out| ==>
              out[k].sig.Signature? && (out[k].sig.statement.ViewChangeSt? || out[k].sig.statement.NewViewSt?)
    ensures r'.preprepared == r.preprepared && r'.view == r.view
  {
  }

  lemma ComplaintsPrepareNothing(c: Config, signed: set<Signature>, p: Node, r: ReplicaState, from: Node, w: Wish,
                                 r': ReplicaState, out: seq<Message>)
    requires c.n >= 1 && OnViewChange(c, p, r, from, w, r', out)
    ensures forall v: nat, m :: SentPrepare(signed + Sigs(out), p, v, m) ==> SentPrepare(signed, p, v, m)
    ensures r'.preprepared == r.preprepared && r'.view == r.view
  {
    ComplaintsOnly(c, p, r, from, w, r', out);
  }

  lemma NewViewPrepares(c: Config, s: System, p: Node, r: ReplicaState, from: Node, view: nat, vcs: seq<Complaint>,
                        proposal: Option<Value>, r': ReplicaState, out: seq<Message>)
    requires c.n >= 1 && OnNewView(c, p, r, from, view, vcs, proposal, r', out)
    requires forall i :: 0 <= i < |vcs| ==> Known(c, s.signed, vcs[i].sig) && ClaimKnown(c, s.signed, vcs[i].claim)
    ensures (r' == r && out == []) || ((r', out) == EnterView(p, r, view, proposal) && Entered(c, s, r, r', proposal))
    ensures forall w: nat, m :: SentPrepare(s.signed + Sigs(out), p, w, m) ==>
              SentPrepare(s.signed, p, w, m) || (w == r'.view && r'.view != r.view && proposal == Some(m))
  {
    SentNothing(s.signed);
    if out != [] {
      SentOne(s.signed, p, Prepare(p, view, proposal.value, Garbage));
    }
    if !(r' == r && out == []) {
      var valid := ValidRecords(c, view, vcs);
      RecordsAreEvidence(c, s.signed, view, vcs);
      var best :| Selects(c, valid, view, best) && ValueOf(best) == proposal;
    }
  }

  lemma NewPrepareLocked(c: Config, s: System, p: Node, r': ReplicaState, w: nat, m': Value, v: nat, m: Value)
    requires c.Valid() && Inv(c, s) && Sparse(c, s) && c.Correct(p) && v < w && CommitPossible(c, s, v, m)
    requires (p, w) !in s.half
    requires || SentPrepare(s.signed, p, w, m')
             || (w == s.replicas[p].view && !s.replicas[p].preprepared)
             || (w == r'.view && Entered(c, s, s.replicas[p], r', Some(m')))
    ensures m == m'
  {
    if w == r'.view && Entered(c, s, s.replicas[p], r', Some(m')) {
      EnteredForces(c, s, s.replicas[p], r', Some(m'), v, m);
    }
  }

  lemma StepKeepsLock(c: Config, s: System, s': System, step: Step)
    requires c.Valid() && Inv(c, s) && Sparse(c, s) && NextStep(c, s, s', step)
    ensures Lock(c, s') && Fresh(c, s')
  {
    StepKeepsReplica(c, s, s', step);
    HowPrepared(c, s, s', step);
    var p := step.p;
    forall q: Node, w: nat, m', v: nat, m |
      c.Correct(q) && (q, w) !in s'.half && SentPrepare(s'.signed, q, w, m') && v < w && CommitPossible(c, s', v, m)
      ensures m == m'
    {
      PossibleShrinks(c, s, s', p, v, m);
      if q != p {
        OthersSilent(s.signed, s'.signed, p, q);
      } else {
        NewPrepareLocked(c, s, p, s'.replicas[p], w, m', v, m);
      }
    }
    forall q: Node, v: nat, m |
      c.Correct(q) && !s'.replicas[q].preprepared && (q, s'.replicas[q].view) !in s'.half && v < s'.replicas[q].view
      ensures !CommitPossible(c, s', v, m)
    {
      PossibleShrinks(c, s, s', p, v, m);
      if q == p && CommitPossible(c, s, v, m) {
        EnteredForces(c, s, s.replicas[p], s'.replicas[p], None, v, m);
        assert false;
      }
    }
  }

  lemma EnteredForces(c: Config, s: System, r: ReplicaState, r': ReplicaState, proposal: Option<Value>, v: nat,
                      m: Value)
    requires c.Valid() && Inv(c, s) && Sparse(c, s) && Entered(c, s, r, r', proposal)
    requires v < r'.view && CommitPossible(c, s, v, m)
    ensures proposal == Some(m)
  {
    var wishes, best :| Evidence(c, s.signed, r'.view, wishes) && Selects(c, wishes, r'.view, best)
                        && ValueOf(best) == proposal;
    LockIn(c, s, r'.view, wishes, best, v, m);
  }

  lemma StepKeepsInv(c: Config, s: System, s': System, step: Step)
    requires c.Valid() && Inv(c, s) && Sparse(c, s) && NextStep(c, s, s', step)
    ensures Inv(c, s')
  {
    StepKeepsSound(c, s, s', step);
    StepKeepsLock(c, s, s', step);
  }

  // ------------------------------------------------------------------- all runs

  lemma {:induction false} RunSound(c: Config, run: seq<System>, i: nat)
    requires c.Bounded() && IsRun(c, run) && i < |run|
    ensures Sound(c, run[i])
  {
    if i == 0 {
      InitSound(c, run[0]);
    } else {
      RunSound(c, run, i - 1);
      assert Next(c, run[i - 1], run[i - 1 + 1]);
      var step :| NextStep(c, run[i - 1], run[i], step);
      StepKeepsSound(c, run[i - 1], run[i], step);
    }
  }

  lemma InitSound(c: Config, s: System)
    requires c.n >= 1 && Init(c, s)
    ensures Sound(c, s)
  {
    forall p: Node | c.Correct(p)
      ensures ReplicaInv(c, s.signed, p, s.replicas[p])
    {
    }
  }

  lemma {:induction false} RunInv(c: Config, run: seq<System>, i: nat)
    requires c.Valid() && IsRun(c, run) && AllSparse(c, run) && i < |run|
    ensures Inv(c, run[i])
  {
    if i == 0 {
      InitSound(c, run[0]);
    } else {
      RunInv(c, run, i - 1);
      assert Next(c, run[i - 1], run[i - 1 + 1]);
      var step :| NextStep(c, run[i - 1], run[i], step);
      StepKeepsInv(c, run[i - 1], run[i], step);
    }
  }

  lemma {:induction false} RunGrows(c: Config, run: seq<System>, i: nat, j: nat)
    requires c.n >= 1 && IsRun(c, run) && i <= j < |run|
    ensures run[i].signed <= run[j].signed
    decreases j
  {
    if i < j {
      RunGrows(c, run, i, j - 1);
      assert Next(c, run[j - 1], run[j - 1 + 1]);
    }
  }

  /** Two commit quorums, in whatever views, are for one value. */
  lemma CommitsAgree(c: Config, s: System, v: nat, m: Value, v': nat, m': Value)
    requires c.Valid() && Inv(c, s) && Sparse(c, s) && v <= v'
    requires Committed(c, s.signed, v, m) && Committed(c, s.signed, v', m')
    ensures m == m'
  {
    var q := VoteQuorumsMeet(c, Committers(c, s.signed, v, m), Committers(c, s.signed, v', m'));
    assert SentCommit(s.signed, q, v, m) && SentCommit(s.signed, q, v', m');
    if v == v' {
      UniqueInView(c, s, v, m, m');
    } else {
      var p := CertifiableHasWholePreparer(c, s, v', m');
      assert Committers(c, s.signed, v, m) <= PossibleCommitters(c, s, v, m);
      SubsetSize(Committers(c, s.signed, v, m), PossibleCommitters(c, s, v, m));
      assert CommitPossible(c, s, v, m);
    }
  }

  /**
    Agreement: no two correct replicas ever hold different decisions, at whatever times in a
    run, as long as in no view those that crashed between the two writes of entering it and
    the faulty ones are a vote quorum.
    */
  lemma Agreement(c: Config, run: seq<System>, i: nat, p: Node, j: nat, q: Node)
    requires c.Valid() && IsRun(c, run) && AllSparse(c, run) && i < |run| && j < |run|
    requires c.Correct(p) && c.Correct(q)
    requires run[i].replicas[p].decided.Some? && run[j].replicas[q].decided.Some?
    ensures run[i].replicas[p].decided == run[j].replicas[q].decided
  {
    var k := if i <= j then j else i;
    RunInv(c, run, i);
    RunInv(c, run, j);
    RunGrows(c, run, i, k);
    RunGrows(c, run, j, k);
    var m, m' := run[i].replicas[p].decided.value, run[j].replicas[q].decided.value;
    assert DecideInv(c, run[i].signed, run[i].replicas[p]) && DecideInv(c, run[j].signed, run[j].replicas[q]);
    var v: nat :| Committed(c, run[i].signed, v, m);
    var v': nat :| Committed(c, run[j].signed, v', m');
    CommittedGrows(c, run[i].signed, run[k].signed, v, m);
    CommittedGrows(c, run[j].signed, run[k].signed, v', m');
    if v <= v' {
      CommitsAgree(c, run[k], v, m, v', m');
    } else {
      CommitsAgree(c, run[k], v', m', v, m);
    }
  }

  lemma StepKeepsDecision(c: Config, s: System, s': System, step: Step, p: Node)
    requires c.n >= 1 && |s.replicas| == c.n && NextStep(c, s, s', step) && p < c.n
    requires s.replicas[p].disk == DurablePart(s.replicas[p])
    ensures s.replicas[p].decided.Some? ==> s'.replicas[p].decided == s.replicas[p].decided
  {
    if step.Deliver? && step.p == p {
      var r, r' := s.replicas[p], s'.replicas[p];
      match step.msg {
        case PrePrepare(_, _, _, _) =>
        case Prepare(_, _, _, _) => assert r'.decided == r.decided;
        case Commit(_, _, _, _) =>
        case ViewChange(_, _, _, _) => assert r'.decided == r.decided;
        case NewView(_, _, _, _, _) => assert r'.decided == r.decided;
      }
    }
  }

  lemma StepOnDisk(c: Config, s: System, s': System, step: Step, p: Node)
    requires c.n >= 1 && |s.replicas| == c.n && NextStep(c, s, s', step) && p < c.n
    requires s.replicas[p].disk == DurablePart(s.replicas[p])
    ensures s'.replicas[p].disk == DurablePart(s'.replicas[p])
  {
    if step.Deliver? && step.p == p {
      var r, r' := s.replicas[p], s'.replicas[p];
      match step.msg {
        case PrePrepare(_, _, _, _) =>
        case Prepare(_, _, _, _) => assert r'.disk == DurablePart(r');
        case Commit(_, _, _, _) =>
        case ViewChange(_, _, _, _) => assert r'.disk == DurablePart(r');
        case NewView(_, _, _, _, _) => assert r'.disk == DurablePart(r');
      }
    }
  }

  /** Between steps, a replica's file holds what it must not forget. */
  lemma {:induction false} RunOnDisk(c: Config, run: seq<System>, k: nat, p: Node)
    requires c.n >= 1 && IsRun(c, run) && k < |run| && p < c.n
    ensures run[k].replicas[p].disk == DurablePart(run[k].replicas[p])
  {
    if k > 0 {
      RunOnDisk(c, run, k - 1, p);
      assert Next(c, run[k - 1], run[k - 1 + 1]);
      var step :| NextStep(c, run[k - 1], run[k], step);
      StepOnDisk(c, run[k - 1], run[k], step, p);
    }
  }

  lemma DecisionStays(c: Config, run: seq<System>, k: nat, p: Node)
    requires c.n >= 1 && IsRun(c, run) && k + 1 < |run| && c.Correct(p)
    ensures run[k].replicas[p].decided.Some? ==> run[k + 1].replicas[p].decided == run[k].replicas[p].decided
  {
    RunOnDisk(c, run, k, p);
    assert Next(c, run[k], run[k + 1]);
    var step :| NextStep(c, run[k], run[k + 1], step);
    StepKeepsDecision(c, run[k], run[k + 1], step, p);
  }

  ghost predicate StaysAt(run: seq<System>, k: nat, p: Node) {
    k + 1 < |run| && p < |run[k].replicas| && p < |run[k + 1].replicas| && run[k].replicas[p].decided.Some? ==>
      run[k + 1].replicas[p].decided == run[k].replicas[p].decided
  }

  lemma {:induction false} StaysOver(run: seq<System>, i: nat, j: nat, p: Node)
    requires i <= j < |run| && (forall k: nat :: StaysAt(run, k, p))
    requires (forall k :: 0 <= k < |run| ==> p < |run[k].replicas|) && run[i].replicas[p].decided.Some?
    ensures run[j].replicas[p].decided == run[i].replicas[p].decided
    decreases j
  {
    if i < j {
      StaysOver(run, i, j - 1, p);
      assert StaysAt(run, j - 1, p);
    }
  }

  /** Integrity: a decision, once made, is never changed or lost, also not by a crash. */
  lemma DecisionIsFinal(c: Config, run: seq<System>, i: nat, j: nat, p: Node)
    requires c.n >= 1 && IsRun(c, run) && i <= j < |run| && c.Correct(p)
    requires run[i].replicas[p].decided.Some?
    ensures run[j].replicas[p].decided == run[i].replicas[p].decided
  {
    forall k: nat
      ensures StaysAt(run, k, p)
    {
      if k + 1 < |run| {
        DecisionStays(c, run, k, p);
      }
    }
    StaysOver(run, i, j, p);
  }

  /**
    Lock-in at a replica: once a commit quorum for (v, m) has been sent, every NEWVIEW for
    a later view that a correct replica enters on proposes m.
    */
  lemma LockedNewView(c: Config, run: seq<System>, i: nat, p: Node, msg: Message, r': ReplicaState, out: seq<Message>,
                      v: nat, m: Value)
    requires c.Valid() && IsRun(c, run) && AllSparse(c, run) && i < |run| && c.Correct(p)
    requires Committed(c, run[i].signed, v, m)
    requires msg.NewView? && v < msg.view && Unforged(c, run[i].signed, msg)
    requires Handles(c, p, run[i].replicas[p], msg, r', out) && r'.view == msg.view != run[i].replicas[p].view
    ensures msg.proposal == Some(m)
  {
    var s := run[i];
    RunInv(c, run, i);
    NewViewPrepares(c, s, p, s.replicas[p], msg.from, msg.view, msg.vcs, msg.proposal, r', out);
    SubsetSize(Committers(c, s.signed, v, m), PossibleCommitters(c, s, v, m));
    EnteredForces(c, s, s.replicas[p], r', msg.proposal, v, m);
  }

  // -------------------------------------------------------- certificates, leaders

  /** Whatever order a map iteration takes, the selection from known wishes gives one value. */
  lemma SelectionIsUnique(c: Config, s: System, wishes: map<Node, Wish>, nv: nat, a: Option<Cert>, b: Option<Cert>)
    requires c.Bounded() && Sound(c, s)
    requires forall q :: q in wishes ==> GoodWish(c, s.signed, q, wishes[q])
    requires Selects(c, wishes, nv, a) && Selects(c, wishes, nv, b)
    ensures ValueOf(a) == ValueOf(b)
  {
    if a.Some? {
      GoodCertIsCertifiable(c, s.signed, a.value);
      GoodCertIsCertifiable(c, s.signed, b.value);
      UniqueInView(c, s, a.value.view, a.value.value, b.value.value);
    }
  }

  lemma {:induction false} ForwardedRecordsAccepted(c: Config, signed: set<Signature>, view: nat,
                                                    wishes: map<Node, Wish>, vcs: seq<Complaint>)
    requires forall q :: q in wishes ==> GoodWish(c, signed, q, wishes[q])
    requires forall i :: 0 <= i < |vcs| ==>
               var q := vcs[i].from;
               q in Wishers(wishes, view) && vcs[i] == Complaint(q, view, wishes[q].claim, wishes[q].sig)
    ensures forall q :: q in ValidRecords(c, view, vcs) <==> exists i :: 0 <= i < |vcs| && vcs[i].from == q
    ensures forall q :: q in ValidRecords(c, view, vcs) ==> q in wishes && ValidRecords(c, view, vcs)[q] == wishes[q]
  {
    if vcs != [] {
      var front, x := vcs[..|vcs| - 1], vcs[|vcs| - 1];
      ForwardedRecordsAccepted(c, signed, view, wishes, front);
      assert GoodWish(c, signed, x.from, wishes[x.from]);
      assert VerifyEnvelope(c, ViewChange(x.from, x.newview, x.claim, x.sig));
      assert ValidRecords(c, view, vcs) == OrInsert(ValidRecords(c, view, front), x.from, wishes[x.from]);
    }
  }

  /** A replica accepts from a correct leader exactly the wishes that leader forwarded, and selects what it selected. */
  lemma HonestEvidenceAccepted(c: Config, s: System, view: nat, wishes: map<Node, Wish>, vcs: seq<Complaint>,
                               best: Option<Cert>)
    requires c.Bounded() && Sound(c, s)
    requires Evidence(c, s.signed, view, wishes) && Forwards(wishes, view, vcs) && Selects(c, wishes, view, best)
    ensures |ValidRecords(c, view, vcs)| >= 2 * c.F() + 1
    ensures forall mine :: Selects(c, ValidRecords(c, view, vcs), view, mine) ==> ValueOf(mine) == ValueOf(best)
    ensures Selects(c, ValidRecords(c, view, vcs), view, best)
  {
    var valid := ValidRecords(c, view, vcs);
    ForwardedRecordsAccepted(c, s.signed, view, wishes, vcs);
    forall q
      ensures q in valid <==> q in Wishers(wishes, view)
    {
      if q in Wishers(wishes, view) {
        var i :| 0 <= i < |vcs| && vcs[i] == Complaint(q, view, wishes[q].claim, wishes[q].sig);
        assert vcs[i].from == q;
      }
    }
    assert valid.Keys == Wishers(wishes, view);
    assert Claimants(c, valid, view) == Claimants(c, wishes, view);
    forall mine | Selects(c, valid, view, mine)
      ensures ValueOf(mine) == ValueOf(best)
    {
      assert Selects(c, wishes, view, mine);
      SelectionIsUnique(c, s, wishes, view, mine, best);
    }
  }

  /** A correct leader's NEWVIEW is never rejected by a correct replica still below that view. */
  lemma HonestNewViewAccepted(c: Config, run: seq<System>, i: nat, leader: Node, p: Node, msg: Message,
                              r': ReplicaState, out: seq<Message>)
    requires c.Bounded() && IsRun(c, run) && i < |run| && c.Correct(leader) && c.Correct(p)
    requires msg.NewView? && msg.from == leader && msg.sig == Signature(leader, StatementOf(msg))
    requires msg.sig in run[i].signed
    requires run[i].replicas[p].view < msg.view
    requires Handles(c, p, run[i].replicas[p], msg, r', out)
    ensures r'.view == msg.view
    ensures msg.proposal.Some? ==> r'.myPrepare == Some((msg.view, msg.proposal.value))
  {
    var s := run[i];
    RunSound(c, run, i);
    assert ReplicaInv(c, s.signed, leader, s.replicas[leader]);
    assert SentNewView(s.signed, leader, msg.view, msg.vcs, msg.proposal);
    var wishes, best :| Evidence(c, s.signed, msg.view, wishes) && Forwards(wishes, msg.view, msg.vcs)
                        && Selects(c, wishes, msg.view, best) && msg.proposal == ValueOf(best);
    HonestEvidenceAccepted(c, s, msg.view, wishes, msg.vcs, best);
  }

  /**
    In every reachable state, a certificate a correct replica holds verifies, and no other value is certified in its
    view.
    */
  lemma HeldCertificates(c: Config, run: seq<System>, i: nat, p: Node, q: Node)
    requires c.Bounded() && IsRun(c, run) && i < |run| && c.Correct(p) && c.Correct(q)
    requires run[i].replicas[p].prepared.Some? && run[i].replicas[q].prepared.Some?
    ensures CertVerifies(c, run[i].replicas[p].prepared.value)
    ensures var a, b := run[i].replicas[p].prepared.value, run[i].replicas[q].prepared.value;
            a.view == b.view ==> a.value == b.value
  {
    var s := run[i];
    RunSound(c, run, i);
    var a, b := s.replicas[p].prepared.value, s.replicas[q].prepared.value;
    assert ReplicaInv(c, s.signed, p, s.replicas[p]) && ReplicaInv(c, s.signed, q, s.replicas[q]);
    GoodCertIsCertifiable(c, s.signed, a);
    GoodCertIsCertifiable(c, s.signed, b);
    if a.view == b.view {
      UniqueInView(c, s, a.view, a.value, b.value);
    }
  }
}
