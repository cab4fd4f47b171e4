/**
  What a correct member does about the complaints it is sent, by the history of the run: what
  it has on file of each other member, when it has joined, and when it has led.
  */
module PbftComplaints {
  import opened Options
  import opened Quorums
  import opened PbftReplica
  import opened PbftSystem
  import opened PbftSafety
  import opened PbftTheorems
  import opened PbftAnswers

  /** The steps of a run. */
  ghost predicate Steps(c: Config, run: seq<System>, steps: seq<Step>)
    requires c.n >= 1
  {
    && IsRun(c, run) && |steps| + 1 == |run|
    && forall k :: 0 <= k < |steps| ==> NextStep(c, run[k], run[k + 1], steps[k])
  }

  lemma {:induction false} EveryRunHasSteps(c: Config, run: seq<System>, k: nat) returns (steps: seq<Step>)
    requires c.n >= 1 && IsRun(c, run) && k < |run|
    ensures |steps| == k && forall j :: 0 <= j < k ==> NextStep(c, run[j], run[j + 1], steps[j])
  {
    steps := [];
    if k > 0 {
      var front := EveryRunHasSteps(c, run, k - 1);
      assert Next(c, run[k - 1], run[k - 1 + 1]);
      var step :| NextStep(c, run[k - 1], run[k], step);
      steps := front + [step];
    }
  }

  // A complaint and the member that signed it.
  type Heard = (Node, Wish)

  /** The complaint a step hands over, when it is signed by the member it names. */
  ghost function HeardIn(c: Config, step: Step): set<Heard> {
    match step
    case Deliver(_, msg, _) =>
      if msg.ViewChange? && msg.from < c.n && msg.sig == Signature(msg.from, ViewChangeSt(msg.newview, msg.claim))
      then {(msg.from, Wish(msg.newview, msg.claim, msg.sig))} else {}
    case _ => {}
  }

  /** A restart forgets them all. */
  ghost function HeardAfter(c: Config, heard: set<Heard>, step: Step): set<Heard> {
    if step.Restart? || step.HalfEnter? then {} else heard + HeardIn(c, step)
  }

  /** The complaints p has handled in the first i steps since it last started. */
  ghost function HeardBy(c: Config, p: Node, steps: seq<Step>, i: nat): set<Heard>
    requires i <= |steps|
  {
    if i == 0 then {}
    else if steps[i - 1].p == p then HeardAfter(c, HeardBy(c, p, steps, i - 1), steps[i - 1])
    else HeardBy(c, p, steps, i - 1)
  }

  // ------------------------------------------------------------------- every step

  /** On file is, of each member heard, a complaint of the highest view heard from it. */
  ghost predicate Files(r: ReplicaState, heard: set<Heard>) {
    && (forall q :: q in r.viewchanges ==> (q, r.viewchanges[q]) in heard)
    && (forall x :: x in heard ==> x.0 in r.viewchanges && x.1.newview <= r.viewchanges[x.0].newview)
  }

  ghost predicate Led(signed: set<Signature>, p: Node, nv: nat) {
    exists vcs, proposal :: SentNewView(signed, p, nv, vcs, proposal)
  }

  /** Enough complaints on file toward a later view have been acted on. */
  ghost predicate ActedAt(c: Config, signed: set<Signature>, p: Node, r: ReplicaState, nv: nat)
    requires c.n >= 1
  {
    nv > r.view ==>
      && (|Wishers(r.viewchanges, nv)| > c.F() ==> r.highestVcSent >= nv)
      && (|Wishers(r.viewchanges, nv)| > 2 * c.F() && c.LeaderOf(nv) == p ==> Led(signed, p, nv))
  }

  ghost predicate Acted(c: Config, signed: set<Signature>, p: Node, r: ReplicaState)
    requires c.n >= 1
  {
    forall nv: nat :: ActedAt(c, signed, p, r, nv)
  }

  lemma RecordingFiles(r: ReplicaState, heard: set<Heard>, from: Node, w: Wish, r': ReplicaState)
    requires Files(r, heard) && r'.viewchanges == RecordWish(r.viewchanges, from, w)
    ensures Files(r', heard + {(from, w)})
  {
  }

  lemma FewerWishers(wishes: map<Node, Wish>, from: Node, w: Wish, nv: nat)
    requires w.newview != nv
    ensures |Wishers(RecordWish(wishes, from, w), nv)| <= |Wishers(wishes, nv)|
  {
    SubsetSize(Wishers(RecordWish(wishes, from, w), nv), Wishers(wishes, nv));
  }

  lemma StillLed(signed: set<Signature>, signed': set<Signature>, p: Node, nv: nat)
    requires Led(signed, p, nv) && signed <= signed'
    ensures Led(signed', p, nv)
  {
    var vcs, proposal :| SentNewView(signed, p, nv, vcs, proposal);
    assert SentNewView(signed', p, nv, vcs, proposal);
  }

  /** A step that records no complaint, and goes back on neither view nor complaints. */
  lemma QuietActs(c: Config, signed: set<Signature>, signed': set<Signature>, p: Node, r: ReplicaState,
                  r': ReplicaState)
    requires c.n >= 1 && Acted(c, signed, p, r) && signed <= signed'
    requires r'.viewchanges == r.viewchanges && r'.view >= r.view && r'.highestVcSent >= r.highestVcSent
    ensures Acted(c, signed', p, r')
  {
    forall nv: nat
      ensures ActedAt(c, signed', p, r', nv)
    {
      assert ActedAt(c, signed, p, r, nv);
      if Led(signed, p, nv) {
        StillLed(signed, signed', p, nv);
      }
    }
  }

  /** The complaint just recorded is acted on. */
  lemma ComplaintActs(c: Config, signed: set<Signature>, p: Node, r: ReplicaState, from: Node, w: Wish,
                      r': ReplicaState, out: seq<Message>)
    requires c.n >= 1 && OnViewChange(c, p, r, from, w, r', out)
    ensures ActedAt(c, signed + Sigs(out), p, r', w.newview)
    ensures r'.view == r.view && r'.highestVcSent >= r.highestVcSent
    ensures r'.viewchanges == RecordWish(r.viewchanges, from, w)
  {
    var nv := w.newview;
    if nv > r'.view && |Wishers(r'.viewchanges, nv)| > 2 * c.F() && c.LeaderOf(nv) == p {
      ComplaintLeads(c, p, r, from, w, r', out);
      var last := out[|out| - 1];
      assert last in out && last.sig in Sigs(out);
      assert SentNewView(signed + Sigs(out), p, nv, last.vcs, last.proposal);
    }
  }

  lemma ComplaintLeads(c: Config, p: Node, r: ReplicaState, from: Node, w: Wish, r': ReplicaState, out: seq<Message>)
    requires c.n >= 1 && OnViewChange(c, p, r, from, w, r', out)
    requires w.newview > r'.view && |Wishers(r'.viewchanges, w.newview)| > 2 * c.F() && c.LeaderOf(w.newview) == p
    ensures out != []
    ensures var last := out[|out| - 1];
            last.NewView? && last.sig == Signature(p, NewViewSt(w.newview, last.vcs, last.proposal))
  {
  }

  lemma RecordingActs(c: Config, signed: set<Signature>, p: Node, r: ReplicaState, from: Node, w: Wish,
                      r': ReplicaState, out: seq<Message>)
    requires c.n >= 1 && Acted(c, signed, p, r) && OnViewChange(c, p, r, from, w, r', out)
    ensures Acted(c, signed + Sigs(out), p, r')
  {
    ComplaintActs(c, signed, p, r, from, w, r', out);
    forall nv: nat
      ensures ActedAt(c, signed + Sigs(out), p, r', nv)
    {
      if nv != w.newview {
        assert ActedAt(c, signed, p, r, nv);
        FewerWishers(r.viewchanges, from, w, nv);
        if Led(signed, p, nv) {
          StillLed(signed, signed + Sigs(out), p, nv);
        }
      }
    }
  }

  lemma StartedAfresh(c: Config, signed: set<Signature>, p: Node, r: ReplicaState)
    requires c.n >= 1 && r.viewchanges == map[]
    ensures Files(r, {}) && Acted(c, signed, p, r)
  {
    forall nv: nat
      ensures ActedAt(c, signed, p, r, nv)
    {
      assert Wishers(r.viewchanges, nv) == {};
    }
  }

  /** Of all messages only a complaint changes what is on file. */
  lemma OthersFileNothing(c: Config, p: Node, r: ReplicaState, msg: Message, r': ReplicaState, out: seq<Message>)
    requires c.n >= 1 && Handles(c, p, r, msg, r', out)
    requires !msg.ViewChange? || !VerifyEnvelope(c, msg)
    ensures r'.viewchanges == r.viewchanges && r'.view >= r.view && r'.highestVcSent == r.highestVcSent
  {
  }

  lemma DeliveryFiles(c: Config, signed: set<Signature>, p: Node, r: ReplicaState, heard: set<Heard>, msg: Message,
                      r': ReplicaState, out: seq<Message>)
    requires c.n >= 1 && Files(r, heard) && Acted(c, signed, p, r) && Handles(c, p, r, msg, r', out)
    ensures Files(r', heard + HeardIn(c, Deliver(p, msg, out))) && Acted(c, signed + Sigs(out), p, r')
  {
    if msg.ViewChange? && VerifyEnvelope(c, msg) {
      var w := Wish(msg.newview, msg.claim, msg.sig);
      RecordingActs(c, signed, p, r, msg.from, w, r', out);
      RecordingFiles(r, heard, msg.from, w, r');
    } else {
      OthersFileNothing(c, p, r, msg, r', out);
      QuietActs(c, signed, signed + Sigs(out), p, r, r');
      assert heard + HeardIn(c, Deliver(p, msg, out)) == heard;
    }
  }

  lemma OwnStepFiles(c: Config, s: System, s': System, step: Step, heard: set<Heard>)
    requires c.n >= 1 && |s.replicas| == c.n && NextStep(c, s, s', step)
    requires Files(s.replicas[step.p], heard) && Acted(c, s.signed, step.p, s.replicas[step.p])
    ensures Files(s'.replicas[step.p], HeardAfter(c, heard, step))
    ensures Acted(c, s'.signed, step.p, s'.replicas[step.p])
  {
    var p := step.p;
    match step {
      case Deliver(_, msg, out) => DeliveryFiles(c, s.signed, p, s.replicas[p], heard, msg, s'.replicas[p], out);
      case Restart(_) => StartedAfresh(c, s'.signed, p, s'.replicas[p]);
      case HalfEnter(_, _, _, _) => StartedAfresh(c, s'.signed, p, s'.replicas[p]);
      case Timeout(_) =>
        assert heard + {} == heard;
        QuietActs(c, s.signed, s'.signed, p, s.replicas[p], s'.replicas[p]);
      case Propose(_, _) =>
        assert heard + {} == heard;
        QuietActs(c, s.signed, s'.signed, p, s.replicas[p], s'.replicas[p]);
    }
  }

  lemma StepOfRun(c: Config, run: seq<System>, steps: seq<Step>, k: nat)
    requires c.n >= 1 && Steps(c, run, steps) && k < |steps|
    ensures |run[k].replicas| == c.n && NextStep(c, run[k], run[k + 1], steps[k])
  {
  }

  lemma StartFiles(c: Config, run: seq<System>, p: Node)
    requires c.n >= 1 && IsRun(c, run) && p < c.n
    ensures Files(run[0].replicas[p], {}) && Acted(c, run[0].signed, p, run[0].replicas[p])
  {
    StartedAfresh(c, run[0].signed, p, run[0].replicas[p]);
  }

  lemma {:induction false} RunFiles(c: Config, run: seq<System>, steps: seq<Step>, i: nat, p: Node)
    requires c.n >= 1 && Steps(c, run, steps) && i < |run| && p < c.n
    ensures Files(run[i].replicas[p], HeardBy(c, p, steps, i)) && Acted(c, run[i].signed, p, run[i].replicas[p])
  {
    if i == 0 {
      StartFiles(c, run, p);
    } else {
      RunFiles(c, run, steps, i - 1, p);
      StepOfRun(c, run, steps, i - 1);
      StepFiles(c, run[i - 1], run[i], steps[i - 1], HeardBy(c, p, steps, i - 1), p);
    }
  }

  lemma StepFiles(c: Config, s: System, s': System, step: Step, heard: set<Heard>, p: Node)
    requires c.n >= 1 && |s.replicas| == c.n && NextStep(c, s, s', step) && p < c.n
    requires Files(s.replicas[p], heard) && Acted(c, s.signed, p, s.replicas[p])
    ensures Files(s'.replicas[p], if step.p == p then HeardAfter(c, heard, step) else heard)
    ensures Acted(c, s'.signed, p, s'.replicas[p])
  {
    SignedGrows(c, s, s', step);
    if step.p == p {
      OwnStepFiles(c, s, s', step, heard);
    } else {
      QuietActs(c, s.signed, s'.signed, p, s.replicas[p], s'.replicas[p]);
    }
  }

  // --------------------------------------------------------------------- all runs

  /**
    What a member has on file of q is a complaint it has handled since it last started, of
    the highest view among those of q; nothing exactly when it has handled none of q.
    */
  lemma OnFileExactly(c: Config, run: seq<System>, steps: seq<Step>, i: nat, p: Node, q: Node)
    requires c.n >= 1 && Steps(c, run, steps) && i < |run| && c.Correct(p)
    ensures var file, heard := run[i].replicas[p].viewchanges, HeardBy(c, p, steps, i);
            && (q in file <==> exists x :: x in heard && x.0 == q)
            && (q in file ==> (q, file[q]) in heard
                              && forall x :: x in heard && x.0 == q ==> x.1.newview <= file[q].newview)
  {
    RunFiles(c, run, steps, i, p);
  }

  /** These members complained to p toward nv since it last started, and none of them toward a later view. */
  ghost predicate Complain(heard: set<Heard>, nodes: set<Node>, nv: nat) {
    && (forall q :: q in nodes ==> exists x :: x in heard && x.0 == q && x.1.newview == nv)
    && (forall x :: x in heard && x.0 in nodes ==> x.1.newview <= nv)
  }

  lemma ComplainersOnFile(r: ReplicaState, heard: set<Heard>, nodes: set<Node>, nv: nat)
    requires Files(r, heard) && Complain(heard, nodes, nv)
    ensures |nodes| <= |Wishers(r.viewchanges, nv)|
  {
    forall q | q in nodes
      ensures q in Wishers(r.viewchanges, nv)
    {
      var x :| x in heard && x.0 == q && x.1.newview == nv;
      assert (q, r.viewchanges[q]) in heard;
    }
    SubsetSize(nodes, Wishers(r.viewchanges, nv));
  }

  /** More than f such members, and p complains toward nv or a later view itself. */
  lemma JoinsComplaints(c: Config, run: seq<System>, steps: seq<Step>, i: nat, p: Node, nv: nat, nodes: set<Node>)
    requires c.n >= 1 && Steps(c, run, steps) && i < |run| && c.Correct(p)
    requires nv > run[i].replicas[p].view && Complain(HeardBy(c, p, steps, i), nodes, nv) && |nodes| > c.F()
    ensures run[i].replicas[p].highestVcSent >= nv
    ensures exists w: nat :: w >= nv && HasComplained(run[i].signed, p, w)
  {
    RunOwn(c, run, i, p);
    RunFiles(c, run, steps, i, p);
    ComplainersOnFile(run[i].replicas[p], HeardBy(c, p, steps, i), nodes, nv);
    assert ActedAt(c, run[i].signed, p, run[i].replicas[p], nv);
  }

  /** More than 2f, and the leader of nv has sent a NEWVIEW for it. */
  lemma LeadsOnComplaints(c: Config, run: seq<System>, steps: seq<Step>, i: nat, p: Node, nv: nat, nodes: set<Node>)
    requires c.n >= 1 && Steps(c, run, steps) && i < |run| && c.Correct(p) && c.LeaderOf(nv) == p
    requires nv > run[i].replicas[p].view && Complain(HeardBy(c, p, steps, i), nodes, nv) && |nodes| > 2 * c.F()
    ensures exists vcs, proposal :: SentNewView(run[i].signed, p, nv, vcs, proposal)
  {
    RunFiles(c, run, steps, i, p);
    ComplainersOnFile(run[i].replicas[p], HeardBy(c, p, steps, i), nodes, nv);
    assert ActedAt(c, run[i].signed, p, run[i].replicas[p], nv);
    assert Led(run[i].signed, p, nv);
  }

  // ------------------------------------------------------------ and nothing but that

  /** What recording a complaint may sign of this kind: one complaint, joining enough others toward its view. */
  lemma JoinSigns(c: Config, signed: set<Signature>, p: Node, r: ReplicaState, from: Node, w: Wish, r': ReplicaState,
                  out: seq<Message>, nv: nat, claim: Option<Cert>)
    requires c.n >= 1 && OnViewChange(c, p, r, from, w, r', out)
    requires SentViewChange(signed + Sigs(out), p, nv, claim) && !SentViewChange(signed, p, nv, claim)
    ensures nv == w.newview && nv > r.view && claim == r.prepared && |Wishers(r'.viewchanges, nv)| > c.F()
  {
    var msg :| msg in out && msg.sig == Signature(p, ViewChangeSt(nv, claim));
  }

  lemma WishersHeard(r: ReplicaState, heard: set<Heard>, nv: nat)
    requires Files(r, heard)
    ensures forall q :: q in Wishers(r.viewchanges, nv) ==> exists x :: x in heard && x.0 == q && x.1.newview == nv
  {
    forall q | q in Wishers(r.viewchanges, nv)
      ensures exists x :: x in heard && x.0 == q && x.1.newview == nv
    {
      assert (q, r.viewchanges[q]) in heard;
    }
  }

  /** Of all arms only that of a complaint signs one. */
  lemma DeliveryComplains(c: Config, signed: set<Signature>, p: Node, r: ReplicaState, msg: Message, r': ReplicaState,
                          out: seq<Message>, nv: nat, claim: Option<Cert>)
    requires c.n >= 1 && Handles(c, p, r, msg, r', out)
    requires SentViewChange(signed + Sigs(out), p, nv, claim) && !SentViewChange(signed, p, nv, claim)
    ensures msg.ViewChange? && nv > r.view && claim == r.prepared && |Wishers(r'.viewchanges, nv)| > c.F()
  {
    SentNothing(signed);
    match msg {
      case PrePrepare(_, v, m, _) => SentOne(signed, p, Prepare(p, v, m, Garbage));
      case Prepare(_, v, m, _) => SentOne(signed, p, Commit(p, v, m, Garbage));
      case Commit(_, _, _, _) =>
      case ViewChange(from, w, asked, sig) => JoinSigns(c, signed, p, r, from, Wish(w, asked, sig), r', out, nv, claim);
      case NewView(_, view, _, proposal, _) =>
        if proposal.Some? {
          SentOne(signed, p, Prepare(p, view, proposal.value, Garbage));
        }
    }
  }

  /**
    A correct member complains only past its view, with the certificate it holds, and only
    when its timer fires while it is undecided or it has heard more than f members complain
    toward the same view.
    */
  lemma ComplaintsExplained(c: Config, run: seq<System>, steps: seq<Step>, i: nat, p: Node, nv: nat,
                            claim: Option<Cert>)
    requires c.Bounded() && Steps(c, run, steps) && i < |steps| && c.Correct(p)
    requires SentViewChange(run[i + 1].signed, p, nv, claim) && !SentViewChange(run[i].signed, p, nv, claim)
    ensures steps[i].p == p && nv > run[i].replicas[p].view && claim == run[i].replicas[p].prepared
    ensures || (steps[i].Timeout? && run[i].replicas[p].decided.None?)
            || exists nodes: set<Node> :: |nodes| > c.F() && forall q :: q in nodes ==>
                 exists x :: x in HeardBy(c, p, steps, i + 1) && x.0 == q && x.1.newview == nv
  {
    var s, s', step := run[i], run[i + 1], steps[i];
    assert NextStep(c, s, s', step);
    RunSound(c, run, i);
    StepKeepsReplica(c, s, s', step);
    if step.p != p {
      OthersSilent(s.signed, s'.signed, step.p, p);
      assert false;
    } else {
      OwnStepComplains(c, s, s', step, nv, claim);
      if step.Deliver? {
        RunFiles(c, run, steps, i + 1, p);
        WishersHeard(s'.replicas[p], HeardBy(c, p, steps, i + 1), nv);
      }
    }
  }

  lemma ProposalsComplainNot(c: Config, signed: set<Signature>, p: Node, r: ReplicaState, m: Value)
    requires c.n >= 1
    ensures forall nv: nat, claim :: SentViewChange(signed + Sigs(OnPropose(c, p, r, m)), p, nv, claim) ==>
              SentViewChange(signed, p, nv, claim)
  {
    SentNothing(signed);
    SentOne(signed, p, PrePrepare(p, r.view, m, Garbage));
  }

  lemma TimeoutComplains(signed: set<Signature>, p: Node, r: ReplicaState, nv: nat, claim: Option<Cert>)
    requires SentViewChange(signed + Sigs(OnTimeout(p, r).1), p, nv, claim) && !SentViewChange(signed, p, nv, claim)
    ensures r.decided.None? && nv > r.view && claim == r.prepared
  {
    SentNothing(signed);
    SentOne(signed, p, ViewChange(p, OnTimeout(p, r).0.highestVcSent, r.prepared, Garbage));
  }

  lemma OwnStepComplains(c: Config, s: System, s': System, step: Step, nv: nat, claim: Option<Cert>)
    requires c.n >= 1 && |s.replicas| == c.n && NextStep(c, s, s', step)
    requires SentViewChange(s'.signed, step.p, nv, claim) && !SentViewChange(s.signed, step.p, nv, claim)
    ensures nv > s.replicas[step.p].view && claim == s.replicas[step.p].prepared
    ensures || (step.Timeout? && s.replicas[step.p].decided.None?)
            || (step.Deliver? && |Wishers(s'.replicas[step.p].viewchanges, nv)| > c.F())
  {
    var p := step.p;
    var r, r' := s.replicas[p], s'.replicas[p];
    match step {
      case Deliver(_, msg, out) => DeliveryComplains(c, s.signed, p, r, msg, r', out, nv, claim);
      case Timeout(_) => TimeoutComplains(s.signed, p, r, nv, claim);
      case Propose(_, m) => ProposalsComplainNot(c, s.signed, p, r, m);
      case Restart(_) =>
      case HalfEnter(_, _, _, _) =>
    }
  }

  /** A correct member moves only to a later view, and only on a NEWVIEW its leader has signed. */
  lemma EntersOnLeadersWord(c: Config, run: seq<System>, steps: seq<Step>, i: nat, p: Node)
    requires c.n >= 1 && Steps(c, run, steps) && i < |steps| && c.Correct(p)
    requires run[i + 1].replicas[p].view != run[i].replicas[p].view
    ensures steps[i].p == p && (steps[i].Deliver? || steps[i].HalfEnter?)
    ensures var msg, view := steps[i].msg, run[i + 1].replicas[p].view;
            && view > run[i].replicas[p].view && msg.NewView? && msg.view == view && msg.from == c.LeaderOf(view)
            && msg.sig == Signature(msg.from, NewViewSt(view, msg.vcs, msg.proposal))
  {
    assert NextStep(c, run[i], run[i + 1], steps[i]);
    RunOwn(c, run, i, p);
    SignedGrows(c, run[i], run[i + 1], steps[i]);
    if steps[i].p == p {
      match steps[i] {
        case Deliver(_, msg, out) => EntersOnly(c, p, run[i].replicas[p], msg, run[i + 1].replicas[p], out);
        case HalfEnter(_, msg, entered, out) => EntersOnly(c, p, run[i].replicas[p], msg, entered, out);
        case _ =>
      }
    }
  }

  lemma EntersOnly(c: Config, p: Node, r: ReplicaState, msg: Message, r': ReplicaState, out: seq<Message>)
    requires c.n >= 1 && Handles(c, p, r, msg, r', out) && r'.view != r.view
    ensures msg.NewView? && msg.view == r'.view > r.view && msg.from == c.LeaderOf(msg.view)
    ensures msg.sig == Signature(msg.from, NewViewSt(msg.view, msg.vcs, msg.proposal))
  {
  }
}
