/**
  The consensus as a state machine over all replicas, an adversary and an
  unreliable network, and the invariant every step keeps.

  The network may delay, drop, duplicate and reorder. A faulty member, or the
  network, may deliver any message to anyone, except that it cannot contain a
  correct member's signature which that member never made.
  */
module PbftSystem {
  import opened Options
  import opened Quorums
  import opened PbftReplica

  // Replica states (a faulty member's entry means nothing), every signature correct members made,
  // and as history the correct members that crashed between the two writes of entering a view.
  datatype System = System(replicas: seq<ReplicaState>, signed: set<Signature>, half: set<(Node, nat)>)

  datatype Step =
    | Deliver(p: Node, msg: Message, out: seq<Message>)
    | Timeout(p: Node)
    | Propose(p: Node, m: Value)
    | Restart(p: Node)
    | HalfEnter(p: Node, msg: Message, entered: ReplicaState, out: seq<Message>)

  // ------------------------------------------------------------- unforgeability

  ghost predicate Known(c: Config, signed: set<Signature>, sig: Signature) {
    sig.Signature? && c.Correct(sig.signer) ==> sig in signed
  }

  ghost predicate CertKnown(c: Config, signed: set<Signature>, cert: Cert) {
    forall i :: 0 <= i < |cert.sigs| ==> Known(c, signed, cert.sigs[i].1)
  }

  ghost predicate ClaimKnown(c: Config, signed: set<Signature>, claim: Option<Cert>) {
    claim.Some? ==> CertKnown(c, signed, claim.value)
  }

  /** No signature in the message is forged. */
  ghost predicate Unforged(c: Config, signed: set<Signature>, msg: Message) {
    && Known(c, signed, msg.sig)
    && (msg.ViewChange? ==> ClaimKnown(c, signed, msg.claim))
    && (msg.NewView? ==> forall i :: 0 <= i < |msg.vcs| ==>
          Known(c, signed, msg.vcs[i].sig) && ClaimKnown(c, signed, msg.vcs[i].claim))
  }

  // ---------------------------------------------------------------- transitions

  ghost predicate Init(c: Config, s: System) {
    && |s.replicas| == c.n
    && (forall p :: 0 <= p < c.n ==> s.replicas[p] == Reload(NO_FILE))
    && s.signed == {} && s.half == {}
  }

  function Sigs(out: seq<Message>): set<Signature> {
    set x | x in out :: x.sig
  }

  ghost predicate NextStep(c: Config, s: System, s': System, step: Step)
    requires c.n >= 1 && |s.replicas| == c.n
  {
    && c.Correct(step.p)
    && |s'.replicas| == c.n
    && var r, r' := s.replicas[step.p], s'.replicas[step.p];
    && s'.replicas == s.replicas[step.p := r']
    && (!step.HalfEnter? ==> s'.half == s.half)
    && match step
       case Deliver(p, msg, out) =>
         && Unforged(c, s.signed, msg)
         && Handles(c, p, r, msg, r', out)
         && s'.signed == s.signed + Sigs(out)
       case Timeout(p) =>
         && r' == OnTimeout(p, r).0
         && s'.signed == s.signed + Sigs(OnTimeout(p, r).1)
       case Propose(p, m) =>
         && r' == r
         && s'.signed == s.signed + Sigs(OnPropose(c, p, r, m))
       case Restart(p) =>
         && r' == Reload(r.disk)
         && s'.signed == s.signed
       case HalfEnter(p, msg, entered, out) =>
         && msg.NewView? && msg.proposal.Some? && Unforged(c, s.signed, msg)
         && Handles(c, p, r, msg, entered, out) && entered.view != r.view
         && r' == Reload(Entering(r, msg.view, msg.proposal).disk)
         && s'.signed == s.signed
         && s'.half == s.half + {(p, msg.view)}
  }

  ghost function HalfEntered(c: Config, s: System, view: nat): set<Node> {
    set p | p in Nodes(c.n) && (p, view) in s.half
  }

  /** In no view are the half-entered and the faulty members a vote quorum. */
  ghost predicate Sparse(c: Config, s: System)
    requires c.n >= 1
  {
    forall view: nat :: !c.VoteQuorum(|HalfEntered(c, s, view) + c.faulty|)
  }

  ghost predicate Next(c: Config, s: System, s': System)
    requires c.n >= 1 && |s.replicas| == c.n
  {
    exists step :: NextStep(c, s, s', step)
  }

  ghost predicate IsRun(c: Config, run: seq<System>)
    requires c.n >= 1
  {
    && |run| > 0
    && Init(c, run[0])
    && (forall i :: 0 <= i < |run| ==> |run[i].replicas| == c.n)
    && (forall i :: 0 <= i < |run| - 1 ==> Next(c, run[i], run[i + 1]))
  }

  ghost predicate AllSparse(c: Config, run: seq<System>)
    requires c.n >= 1
  {
    forall k :: 0 <= k < |run| ==> Sparse(c, run[k])
  }

  // --------------------------------------------------------- facts about messages

  ghost predicate SentPrepare(signed: set<Signature>, p: Node, v: nat, m: Value) {
    Signature(p, PrepareSt(v, m)) in signed
  }

  ghost predicate SentCommit(signed: set<Signature>, p: Node, v: nat, m: Value) {
    Signature(p, CommitSt(v, m)) in signed
  }

  ghost predicate SentViewChange(signed: set<Signature>, p: Node, nv: nat, claim: Option<Cert>) {
    Signature(p, ViewChangeSt(nv, claim)) in signed
  }

  ghost predicate SentNewView(signed: set<Signature>, p: Node, view: nat, vcs: seq<Complaint>,
                              proposal: Option<Value>) {
    Signature(p, NewViewSt(view, vcs, proposal)) in signed
  }

  /** Members who prepared (v, m), every faulty member counted in. */
  ghost function Preparers(c: Config, signed: set<Signature>, v: nat, m: Value): set<Node> {
    set p | p in Nodes(c.n) && (p in c.faulty || SentPrepare(signed, p, v, m))
  }

  ghost predicate Certifiable(c: Config, signed: set<Signature>, v: nat, m: Value)
    requires c.n >= 1
  {
    c.VoteQuorum(|Preparers(c, signed, v, m)|)
  }

  ghost function Committers(c: Config, signed: set<Signature>, v: nat, m: Value): set<Node> {
    set p | p in Nodes(c.n) && (p in c.faulty || SentCommit(signed, p, v, m))
  }

  /** A commit quorum for (v, m) has been sent. */
  ghost predicate Committed(c: Config, signed: set<Signature>, v: nat, m: Value)
    requires c.n >= 1
  {
    c.VoteQuorum(|Committers(c, signed, v, m)|)
  }

  /** p has sent, or may still send, COMMIT (v, m): it has not complained past v. */
  ghost predicate MayCommit(c: Config, s: System, p: Node, v: nat, m: Value)
    requires |s.replicas| == c.n && p < c.n
  {
    p in c.faulty || SentCommit(s.signed, p, v, m) || s.replicas[p].highestVcSent <= v
  }

  ghost function PossibleCommitters(c: Config, s: System, v: nat, m: Value): set<Node>
    requires |s.replicas| == c.n
  {
    set p | p in Nodes(c.n) && MayCommit(c, s, p, v, m)
  }

  /** A commit quorum for (v, m) exists, or can still come into being. */
  ghost predicate CommitPossible(c: Config, s: System, v: nat, m: Value)
    requires c.n >= 1 && |s.replicas| == c.n
  {
    c.VoteQuorum(|PossibleCommitters(c, s, v, m)|)
  }

  // ------------------------------------------------------------------ invariant

  /** One PREPARE per view, never for a view not yet entered, and never forgotten. */
  ghost predicate VoteInv(signed: set<Signature>, p: Node, r: ReplicaState) {
    && (forall v: nat, m :: SentPrepare(signed, p, v, m) ==>
         v <= r.view && (v == r.view ==> r.preprepared && r.myPrepare == Some((v, m))))
    && (forall v: nat, m, m' :: SentPrepare(signed, p, v, m) && SentPrepare(signed, p, v, m') ==> m == m')
    && (r.preprepared ==> r.myPrepare.Some? && r.myPrepare.value.0 == r.view)
  }

  ghost predicate GoodCert(c: Config, signed: set<Signature>, cert: Cert)
    requires c.n >= 1
  {
    CertVerifies(c, cert) && CertKnown(c, signed, cert)
  }

  /** The held certificate passes verification; every COMMIT sent has a certificate of at least its view behind it. */
  ghost predicate CertInv(c: Config, signed: set<Signature>, p: Node, r: ReplicaState)
    requires c.n >= 1
  {
    && (r.prepared.Some? ==> GoodCert(c, signed, r.prepared.value) && r.prepared.value.view <= r.view)
    && (forall v: nat, m :: SentCommit(signed, p, v, m) ==>
         Certifiable(c, signed, v, m) && r.prepared.Some? && v <= r.prepared.value.view)
  }

  /**
    The abandon rule: a claim in a VIEWCHANGE toward nv covers every COMMIT its sender made, or will make, below nv.
    */
  ghost predicate ComplaintInv(c: Config, signed: set<Signature>, p: Node, r: ReplicaState)
    requires c.n >= 1
  {
    && (forall nv: nat, claim :: SentViewChange(signed, p, nv, claim) ==>
         && nv <= r.highestVcSent
         && (claim.Some? ==> GoodCert(c, signed, claim.value) && claim.value.view < nv))
    && (forall nv: nat, claim, v: nat, m ::
         SentViewChange(signed, p, nv, claim) && SentCommit(signed, p, v, m) && v < nv ==>
         claim.Some? && v <= claim.value.view)
  }

  ghost predicate GoodWish(c: Config, signed: set<Signature>, q: Node, w: Wish) {
    && q < c.n
    && w.sig == Signature(q, ViewChangeSt(w.newview, w.claim))
    && Known(c, signed, w.sig)
    && ClaimKnown(c, signed, w.claim)
  }

  /** What the tallies hold was really signed by the member it is filed under, for the current view. */
  ghost predicate TallyInv(c: Config, signed: set<Signature>, r: ReplicaState) {
    && (forall q :: q in r.prepares ==>
         && q < c.n && r.prepares[q].1 == Signature(q, PrepareSt(r.view, r.prepares[q].0))
         && Known(c, signed, r.prepares[q].1))
    && (forall q :: q in r.commits ==>
         q < c.n && Known(c, signed, Signature(q, CommitSt(r.view, r.commits[q]))))
    && (forall q :: q in r.viewchanges ==> GoodWish(c, signed, q, r.viewchanges[q]))
  }

  ghost predicate DecideInv(c: Config, signed: set<Signature>, r: ReplicaState)
    requires c.n >= 1
  {
    r.decided.Some? ==> exists v :: Committed(c, signed, v, r.decided.value)
  }

  /** The evidence for entering `view`: enough known wishes for it. */
  ghost predicate Evidence(c: Config, signed: set<Signature>, view: nat, wishes: map<Node, Wish>)
    requires c.n >= 1
  {
    && |Wishers(wishes, view)| >= 2 * c.F() + 1
    && (forall q :: q in wishes ==> GoodWish(c, signed, q, wishes[q]))
  }

  /** A correct leader's NEWVIEW forwards enough good wishes, and proposes what they select. */
  ghost predicate LeaderInv(c: Config, signed: set<Signature>, p: Node)
    requires c.n >= 1
  {
    forall view: nat, vcs, proposal :: SentNewView(signed, p, view, vcs, proposal) ==>
      && c.LeaderOf(view) == p
      && exists wishes, best :: Evidence(c, signed, view, wishes) && Forwards(wishes, view, vcs)
                             && Selects(c, wishes, view, best) && proposal == ValueOf(best)
  }

  ghost predicate ReplicaInv(c: Config, signed: set<Signature>, p: Node, r: ReplicaState)
    requires c.n >= 1
  {
    && VoteInv(signed, p, r)
    && CertInv(c, signed, p, r)
    && ComplaintInv(c, signed, p, r)
    && TallyInv(c, signed, r)
    && DecideInv(c, signed, r)
    && LeaderInv(c, signed, p)
    && r.disk == DurablePart(r)
  }

  /** What each correct replica keeps by itself, in any configuration and whoever half enters. */
  ghost predicate Sound(c: Config, s: System)
    requires c.n >= 1
  {
    |s.replicas| == c.n && forall p: Node :: c.Correct(p) ==> ReplicaInv(c, s.signed, p, s.replicas[p])
  }

  /** Unless it half entered: while nothing is prepared in the current view, no lower view can still commit anything. */
  ghost predicate Fresh(c: Config, s: System)
    requires c.n >= 1 && |s.replicas| == c.n
  {
    forall p: Node, v: nat, m ::
      c.Correct(p) && !s.replicas[p].preprepared && (p, s.replicas[p].view) !in s.half && v < s.replicas[p].view ==>
        !CommitPossible(c, s, v, m)
  }

  /**
    A correct PREPARE in a view its sender did not half enter agrees with everything that committed, or can still
    commit, in a lower view.
    */
  ghost predicate Lock(c: Config, s: System)
    requires c.n >= 1 && |s.replicas| == c.n
  {
    forall p: Node, w: nat, m', v: nat, m ::
      c.Correct(p) && (p, w) !in s.half && SentPrepare(s.signed, p, w, m') && v < w && CommitPossible(c, s, v, m) ==>
        m == m'
  }

  ghost predicate Inv(c: Config, s: System)
    requires c.n >= 1
  {
    Sound(c, s) && Fresh(c, s) && Lock(c, s)
  }
}
