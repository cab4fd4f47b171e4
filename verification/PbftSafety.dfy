/** Every step keeps the invariant. */
module PbftSafety {
  import opened Options
  import opened Quorums
  import opened PbftReplica
  import opened PbftSystem

  // --------------------------------------------------------------- monotonicity

  /** signed' adds only signatures made by p. */
  ghost predicate Grows(signed: set<Signature>, signed': set<Signature>, p: Node) {
    && signed <= signed'
    && (forall x :: x in signed' && x !in signed ==> x.Signature? && x.signer == p)
  }

  lemma OthersSilent(signed: set<Signature>, signed': set<Signature>, p: Node, q: Node)
    requires Grows(signed, signed', p) && q != p
    ensures forall v: nat, m :: SentPrepare(signed', q, v, m) ==> SentPrepare(signed, q, v, m)
    ensures forall v: nat, m :: SentCommit(signed', q, v, m) ==> SentCommit(signed, q, v, m)
    ensures forall nv: nat, claim :: SentViewChange(signed', q, nv, claim) ==> SentViewChange(signed, q, nv, claim)
    ensures forall view: nat, vcs, proposal :: SentNewView(signed', q, view, vcs, proposal) ==>
              SentNewView(signed, q, view, vcs, proposal)
  {
  }

  /** Sending `out` adds its signatures, each of the statement it seals. */
  lemma SentOne(signed: set<Signature>, p: Node, msg: Message)
    requires msg.from == p
    ensures Grows(signed, signed + Sigs([Seal(msg)]), p)
    ensures var signed', st := signed + Sigs([Seal(msg)]), StatementOf(msg);
            && (forall v: nat, m :: SentPrepare(signed', p, v, m) ==>
                 SentPrepare(signed, p, v, m) || st == PrepareSt(v, m))
            && (forall v: nat, m :: SentCommit(signed', p, v, m) ==>
                 SentCommit(signed, p, v, m) || st == CommitSt(v, m))
            && (forall nv: nat, claim :: SentViewChange(signed', p, nv, claim) ==>
                 SentViewChange(signed, p, nv, claim) || st == ViewChangeSt(nv, claim))
            && (forall view: nat, vcs, proposal :: SentNewView(signed', p, view, vcs, proposal) ==>
                 SentNewView(signed, p, view, vcs, proposal) || st == NewViewSt(view, vcs, proposal))
  {
    assert Sigs([Seal(msg)]) == {Seal(msg).sig};
  }

  lemma SentNothing(signed: set<Signature>)
    ensures signed + Sigs([]) == signed
  {
  }

  lemma CertifiableGrows(c: Config, signed: set<Signature>, signed': set<Signature>, v: nat, m: Value)
    requires c.n >= 1 && signed <= signed'
    ensures Certifiable(c, signed, v, m) ==> Certifiable(c, signed', v, m)
  {
    SubsetSize(Preparers(c, signed, v, m), Preparers(c, signed', v, m));
  }

  lemma CommittedGrows(c: Config, signed: set<Signature>, signed': set<Signature>, v: nat, m: Value)
    requires c.n >= 1 && signed <= signed'
    ensures Committed(c, signed, v, m) ==> Committed(c, signed', v, m)
  {
    SubsetSize(Committers(c, signed, v, m), Committers(c, signed', v, m));
  }

  lemma TalliesGrow(c: Config, signed: set<Signature>, signed': set<Signature>, r: ReplicaState)
    requires c.n >= 1 && signed <= signed'
    requires TallyInv(c, signed, r) && DecideInv(c, signed, r)
    ensures TallyInv(c, signed', r) && DecideInv(c, signed', r)
  {
    if r.decided.Some? {
      var v: nat :| Committed(c, signed, v, r.decided.value);
      CommittedGrows(c, signed, signed', v, r.decided.value);
    }
  }

  lemma CertGrows(c: Config, signed: set<Signature>, signed': set<Signature>, p: Node, q: Node, r: ReplicaState)
    requires c.n >= 1 && Grows(signed, signed', p) && q != p
    requires CertInv(c, signed, q, r)
    ensures CertInv(c, signed', q, r)
  {
    OthersSilent(signed, signed', p, q);
    forall v: nat, m | SentCommit(signed', q, v, m)
      ensures Certifiable(c, signed', v, m) && r.prepared.Some? && v <= r.prepared.value.view
    {
      assert SentCommit(signed, q, v, m);
      CertifiableGrows(c, signed, signed', v, m);
    }
  }

  lemma LeaderGrows(c: Config, signed: set<Signature>, signed': set<Signature>, p: Node)
    requires c.n >= 1 && signed <= signed'
    requires LeaderInv(c, signed, p)
    requires forall view: nat, vcs, proposal :: SentNewView(signed', p, view, vcs, proposal) ==>
              SentNewView(signed, p, view, vcs, proposal)
    ensures LeaderInv(c, signed', p)
  {
    forall view: nat, vcs, proposal | SentNewView(signed', p, view, vcs, proposal)
      ensures c.LeaderOf(view) == p
      ensures exists wishes, best :: Evidence(c, signed', view, wishes) && Forwards(wishes, view, vcs)
                                  && Selects(c, wishes, view, best) && proposal == ValueOf(best)
    {
      var wishes, best :| Evidence(c, signed, view, wishes) && Forwards(wishes, view, vcs)
                          && Selects(c, wishes, view, best) && proposal == ValueOf(best);
      assert Evidence(c, signed', view, wishes);
    }
  }

  lemma OthersKeep(c: Config, signed: set<Signature>, signed': set<Signature>, p: Node, q: Node, r: ReplicaState)
    requires c.n >= 1 && Grows(signed, signed', p) && q != p
    requires ReplicaInv(c, signed, q, r)
    ensures ReplicaInv(c, signed', q, r)
  {
    OthersSilent(signed, signed', p, q);
    TalliesGrow(c, signed, signed', r);
    CertGrows(c, signed, signed', p, q, r);
    LeaderGrows(c, signed, signed', q);
    assert VoteInv(signed', q, r);
    assert ComplaintInv(c, signed', q, r);
  }

  // ---------------------------------------------------------------- one arm each

  /** What a step of p may do, seen from outside: its COMMITs are gated by its complaints. */
  ghost predicate Gated(signed: set<Signature>, signed': set<Signature>, p: Node, r: ReplicaState, r': ReplicaState) {
    && Grows(signed, signed', p)
    && r.highestVcSent <= r'.highestVcSent
    && (forall v: nat, m :: SentCommit(signed', p, v, m) ==> SentCommit(signed, p, v, m) || r.highestVcSent <= v)
  }

  /** A step of p that sends no COMMIT and keeps its certificate keeps what is said about them. */
  lemma OwnCertKept(c: Config, signed: set<Signature>, signed': set<Signature>, p: Node, r: ReplicaState,
                    r': ReplicaState)
    requires c.n >= 1 && signed <= signed' && CertInv(c, signed, p, r)
    requires r'.prepared == r.prepared && r.view <= r'.view
    requires forall v: nat, m :: SentCommit(signed', p, v, m) ==> SentCommit(signed, p, v, m)
    ensures CertInv(c, signed', p, r')
  {
    forall v: nat, m | SentCommit(signed', p, v, m)
      ensures Certifiable(c, signed', v, m) && r.prepared.Some? && v <= r.prepared.value.view
    {
      CertifiableGrows(c, signed, signed', v, m);
    }
  }

  /** A step of p that only sends a PREPARE m for the view it is then in. */
  lemma VoteKeeps(c: Config, signed: set<Signature>, p: Node, r: ReplicaState, r': ReplicaState, m: Value)
    requires c.Bounded() && ReplicaInv(c, signed, p, r)
    requires r'.disk == DurablePart(r') && r'.prepared == r.prepared && r'.highestVcSent == r.highestVcSent
    requires r'.preprepared && r'.myPrepare == Some((r'.view, m))
    requires r'.view > r.view || (r'.view == r.view && !r.preprepared)
    requires DecideInv(c, signed, r') && TallyInv(c, signed, r')
    ensures var signed' := signed + Sigs([Seal(Prepare(p, r'.view, m, Garbage))]);
            ReplicaInv(c, signed', p, r') && Gated(signed, signed', p, r, r')
  {
    var msg := Prepare(p, r'.view, m, Garbage);
    var signed' := signed + Sigs([Seal(msg)]);
    SentOne(signed, p, msg);
    TalliesGrow(c, signed, signed', r');
    LeaderGrows(c, signed, signed', p);
    OwnCertKept(c, signed, signed', p, r, r');
    assert VoteInv(signed', p, r');
    assert ComplaintInv(c, signed', p, r');
  }

  lemma PrePrepareKeeps(c: Config, signed: set<Signature>, p: Node, r: ReplicaState, from: Node, v: nat, m: Value)
    requires c.Bounded() && ReplicaInv(c, signed, p, r)
    ensures var (r', out) := OnPrePrepare(c, p, r, from, v, m);
            ReplicaInv(c, signed + Sigs(out), p, r') && Gated(signed, signed + Sigs(out), p, r, r')
  {
    var (r', out) := OnPrePrepare(c, p, r, from, v, m);
    SentNothing(signed);
    if out != [] {
      VoteKeeps(c, signed, p, r, r', m);
    }
  }

  lemma VoteQuorumCertifies(c: Config, signed: set<Signature>, r: ReplicaState, m: Value)
    requires c.Bounded() && TallyInv(c, signed, r) && c.VoteQuorum(|VotersFor(r.prepares, m)|)
    ensures Certifiable(c, signed, r.view, m)
  {
    var a := VotersFor(r.prepares, m);
    assert a <= Preparers(c, signed, r.view, m);
    SubsetSize(a, Preparers(c, signed, r.view, m));
  }

  /** Every certificate a correct member assembles passes verification. */
  lemma AssembledCertVerifies(c: Config, signed: set<Signature>, r: ReplicaState, m: Value, cert: Cert)
    requires c.Bounded() && TallyInv(c, signed, r) && c.VoteQuorum(|VotersFor(r.prepares, m)|)
    requires Assembles(r.prepares, r.view, m, cert)
    ensures GoodCert(c, signed, cert)
  {
    var a, b := VotersFor(r.prepares, m), SupportersUpTo(c, cert, |cert.sigs|);
    forall q | q in a
      ensures q in b
    {
      var i :| 0 <= i < |cert.sigs| && cert.sigs[i] == (q, r.prepares[q].1);
      assert CountsAt(c, cert, i);
    }
    SubsetSize(a, b);
  }

  /** A step of p that takes up a good certificate for (view, m), not having complained, and sends COMMIT. */
  lemma CommitVoteKeeps(c: Config, signed: set<Signature>, p: Node, r: ReplicaState, r': ReplicaState, m: Value)
    requires c.Bounded() && ReplicaInv(c, signed, p, r) && TallyInv(c, signed, r')
    requires r'.view == r.view && r.highestVcSent <= r.view && r'.disk == DurablePart(r')
    requires r'.preprepared == r.preprepared && r'.myPrepare == r.myPrepare
    requires r'.highestVcSent == r.highestVcSent && r'.decided == r.decided
    requires r'.prepared.Some? && r'.prepared.value.view == r.view && GoodCert(c, signed, r'.prepared.value)
    requires Certifiable(c, signed, r.view, m)
    ensures var signed' := signed + Sigs([Seal(Commit(p, r.view, m, Garbage))]);
            ReplicaInv(c, signed', p, r') && Gated(signed, signed', p, r, r')
  {
    var msg := Commit(p, r.view, m, Garbage);
    var signed' := signed + Sigs([Seal(msg)]);
    SentOne(signed, p, msg);
    assert DecideInv(c, signed, r');
    TalliesGrow(c, signed, signed', r');
    LeaderGrows(c, signed, signed', p);
    forall v: nat, m0 | SentCommit(signed', p, v, m0)
      ensures Certifiable(c, signed', v, m0) && v <= r'.prepared.value.view
    {
      CertifiableGrows(c, signed, signed', v, m0);
    }
    assert VoteInv(signed', p, r');
    assert ComplaintInv(c, signed', p, r');
  }

  /** Changing the tallies only. */
  lemma TallyOnlyKeeps(c: Config, signed: set<Signature>, p: Node, r: ReplicaState, r': ReplicaState)
    requires c.n >= 1 && ReplicaInv(c, signed, p, r)
    requires r' == r.(prepares := r'.prepares, commits := r'.commits, viewchanges := r'.viewchanges)
    requires TallyInv(c, signed, r')
    ensures ReplicaInv(c, signed, p, r')
  {
  }

  lemma PrepareTallied(c: Config, signed: set<Signature>, r: ReplicaState, from: Node, m: Value, sig: Signature)
    requires TallyInv(c, signed, r)
    requires VerifyEnvelope(c, Prepare(from, r.view, m, sig)) && Known(c, signed, sig)
    ensures TallyInv(c, signed, r.(prepares := OrInsert(r.prepares, from, (m, sig))))
  {
  }

  lemma PrepareKeeps(c: Config, signed: set<Signature>, p: Node, r: ReplicaState, from: Node, v: nat, m: Value,
                     sig: Signature, r': ReplicaState, out: seq<Message>)
    requires c.Bounded() && ReplicaInv(c, signed, p, r)
    requires VerifyEnvelope(c, Prepare(from, v, m, sig)) && Known(c, signed, sig)
    requires OnPrepare(c, p, r, from, v, m, sig, r', out)
    ensures ReplicaInv(c, signed + Sigs(out), p, r') && Gated(signed, signed + Sigs(out), p, r, r')
  {
    SentNothing(signed);
    if v == r.view && r.highestVcSent <= r.view {
      var tallied := r.(prepares := OrInsert(r.prepares, from, (m, sig)));
      PrepareTallied(c, signed, r, from, m, sig);
      TallyOnlyKeeps(c, signed, p, r, tallied);
      if c.VoteQuorum(|VotersFor(tallied.prepares, m)|) && !r.sentcommit {
        VoteQuorumCertifies(c, signed, tallied, m);
        AssembledCertVerifies(c, signed, tallied, m, r'.prepared.value);
        CommitVoteKeeps(c, signed, p, tallied, r', m);
      }
    }
  }

  lemma CommitQuorumCommits(c: Config, signed: set<Signature>, r: ReplicaState, m: Value)
    requires c.n >= 1 && TallyInv(c, signed, r) && c.VoteQuorum(|CommittersFor(r.commits, m)|)
    ensures Committed(c, signed, r.view, m)
  {
    var a := CommittersFor(r.commits, m);
    assert a <= Committers(c, signed, r.view, m);
    SubsetSize(a, Committers(c, signed, r.view, m));
  }

  lemma CommitTallied(c: Config, signed: set<Signature>, r: ReplicaState, from: Node, m: Value, sig: Signature)
    requires TallyInv(c, signed, r)
    requires VerifyEnvelope(c, Commit(from, r.view, m, sig)) && Known(c, signed, sig)
    ensures TallyInv(c, signed, r.(commits := OrInsert(r.commits, from, m)))
  {
  }

  lemma DecisionKeeps(c: Config, signed: set<Signature>, p: Node, r: ReplicaState, m: Value)
    requires c.n >= 1 && ReplicaInv(c, signed, p, r) && Committed(c, signed, r.view, m)
    ensures ReplicaInv(c, signed, p, Persist(r.(decided := Some(m))))
  {
    assert DecideInv(c, signed, r.(decided := Some(m)));
  }

  lemma CommitKeeps(c: Config, signed: set<Signature>, p: Node, r: ReplicaState, from: Node, v: nat, m: Value,
                    sig: Signature)
    requires c.Bounded() && ReplicaInv(c, signed, p, r)
    requires VerifyEnvelope(c, Commit(from, v, m, sig)) && Known(c, signed, sig)
    ensures ReplicaInv(c, signed, p, OnCommit(c, r, from, v, m))
  {
    if v == r.view && r.highestVcSent <= r.view {
      var tallied := r.(commits := OrInsert(r.commits, from, m));
      CommitTallied(c, signed, r, from, m, sig);
      TallyOnlyKeeps(c, signed, p, r, tallied);
      if c.VoteQuorum(|CommittersFor(tallied.commits, m)|) {
        CommitQuorumCommits(c, signed, tallied, m);
        DecisionKeeps(c, signed, p, tallied, m);
      }
    }
  }

  /** A step of p that complains toward nv, past its view and its earlier complaints, presenting its certificate. */
  lemma ComplaintKeeps(c: Config, signed: set<Signature>, p: Node, r: ReplicaState, nv: nat)
    requires c.Bounded() && ReplicaInv(c, signed, p, r)
    requires nv > r.view && nv > r.highestVcSent
    ensures var signed' := signed + Sigs([Seal(ViewChange(p, nv, r.prepared, Garbage))]);
            var r' := Persist(r.(highestVcSent := nv));
            ReplicaInv(c, signed', p, r') && Gated(signed, signed', p, r, r')
  {
    var msg := ViewChange(p, nv, r.prepared, Garbage);
    var signed' := signed + Sigs([Seal(msg)]);
    var r' := Persist(r.(highestVcSent := nv));
    SentOne(signed, p, msg);
    TalliesGrow(c, signed, signed', r);
    LeaderGrows(c, signed, signed', p);
    OwnCertKept(c, signed, signed', p, r, r');
    assert VoteInv(signed', p, r');
    assert ComplaintInv(c, signed', p, r');
    assert TallyInv(c, signed', r');
  }

  /**
    A step of p that signs neither a vote nor a complaint and leaves its state keeps all but what is said of its
    NEWVIEWs.
    */
  lemma SilentKeeps(c: Config, signed: set<Signature>, signed': set<Signature>, p: Node, r: ReplicaState)
    requires c.n >= 1 && ReplicaInv(c, signed, p, r) && LeaderInv(c, signed', p) && signed <= signed'
    requires forall v: nat, m :: SentPrepare(signed', p, v, m) ==> SentPrepare(signed, p, v, m)
    requires forall v: nat, m :: SentCommit(signed', p, v, m) ==> SentCommit(signed, p, v, m)
    requires forall nv: nat, claim :: SentViewChange(signed', p, nv, claim) ==> SentViewChange(signed, p, nv, claim)
    ensures ReplicaInv(c, signed', p, r)
  {
    TalliesGrow(c, signed, signed', r);
    OwnCertKept(c, signed, signed', p, r, r);
    assert VoteInv(signed', p, r);
    assert ComplaintInv(c, signed', p, r);
  }

  lemma LeaderKept(c: Config, signed: set<Signature>, signed': set<Signature>, p: Node, wishes: map<Node, Wish>,
                   nv: nat, best: Option<Cert>, vcs: seq<Complaint>)
    requires c.n >= 1 && LeaderInv(c, signed, p) && signed <= signed' && c.LeaderOf(nv) == p
    requires Evidence(c, signed, nv, wishes) && Selects(c, wishes, nv, best) && Forwards(wishes, nv, vcs)
    requires forall view: nat, vcs0, proposal :: SentNewView(signed', p, view, vcs0, proposal) ==>
               SentNewView(signed, p, view, vcs0, proposal) || (view == nv && vcs0 == vcs && proposal == ValueOf(best))
    ensures LeaderInv(c, signed', p)
  {
    forall view: nat, vcs0, proposal | SentNewView(signed', p, view, vcs0, proposal)
      ensures c.LeaderOf(view) == p
      ensures exists wishes, best0 :: Evidence(c, signed', view, wishes) && Forwards(wishes, view, vcs0)
                                   && Selects(c, wishes, view, best0) && proposal == ValueOf(best0)
    {
      if SentNewView(signed, p, view, vcs0, proposal) {
        JustifiedStays(c, signed, signed', view, vcs0, proposal);
      } else {
        assert Evidence(c, signed', view, wishes);
      }
    }
  }

  lemma JustifiedStays(c: Config, signed: set<Signature>, signed': set<Signature>, view: nat, vcs: seq<Complaint>,
                       proposal: Option<Value>)
    requires c.n >= 1 && signed <= signed'
    requires exists wishes, best :: Evidence(c, signed, view, wishes) && Forwards(wishes, view, vcs)
                                 && Selects(c, wishes, view, best) && proposal == ValueOf(best)
    ensures exists wishes, best :: Evidence(c, signed', view, wishes) && Forwards(wishes, view, vcs)
                                && Selects(c, wishes, view, best) && proposal == ValueOf(best)
  {
    var wishes, best :| Evidence(c, signed, view, wishes) && Forwards(wishes, view, vcs)
                        && Selects(c, wishes, view, best) && proposal == ValueOf(best);
    assert Evidence(c, signed', view, wishes);
  }

  /** A step of p that leads view nv: it sends the NEWVIEW its evidence forces. */
  lemma LeadKeeps(c: Config, signed: set<Signature>, p: Node, r: ReplicaState, nv: nat, best: Option<Cert>,
                  vcs: seq<Complaint>)
    requires c.Bounded() && ReplicaInv(c, signed, p, r) && c.LeaderOf(nv) == p
    requires |Wishers(r.viewchanges, nv)| > 2 * c.F()
    requires Selects(c, r.viewchanges, nv, best) && Forwards(r.viewchanges, nv, vcs)
    ensures var signed' := signed + Sigs([Seal(NewView(p, nv, vcs, ValueOf(best), Garbage))]);
            ReplicaInv(c, signed', p, r) && Gated(signed, signed', p, r, r)
  {
    var msg := NewView(p, nv, vcs, ValueOf(best), Garbage);
    var signed' := signed + Sigs([Seal(msg)]);
    SentOne(signed, p, msg);
    LeaderKept(c, signed, signed', p, r.viewchanges, nv, best, vcs);
    SilentKeeps(c, signed, signed', p, r);
  }

  lemma SigsAppend(signed: set<Signature>, a: seq<Message>, b: seq<Message>)
    ensures signed + Sigs(a + b) == signed + Sigs(a) + Sigs(b)
  {
    assert forall x :: x in a + b <==> x in a || x in b;
  }

  lemma GatedTwice(s0: set<Signature>, s1: set<Signature>, s2: set<Signature>, p: Node,
                   r0: ReplicaState, r1: ReplicaState, r2: ReplicaState)
    requires Gated(s0, s1, p, r0, r1) && Gated(s1, s2, p, r1, r2)
    ensures Gated(s0, s2, p, r0, r2)
  {
  }

  lemma WishRecorded(c: Config, signed: set<Signature>, r: ReplicaState, from: Node, w: Wish)
    requires TallyInv(c, signed, r) && GoodWish(c, signed, from, w)
    ensures TallyInv(c, signed, r.(viewchanges := RecordWish(r.viewchanges, from, w)))
  {
  }

  lemma ViewChangeKeeps(c: Config, signed: set<Signature>, p: Node, r: ReplicaState, from: Node, w: Wish,
                        r': ReplicaState, out: seq<Message>)
    requires c.Bounded() && ReplicaInv(c, signed, p, r)
    requires GoodWish(c, signed, from, w)
    requires OnViewChange(c, p, r, from, w, r', out)
    ensures ReplicaInv(c, signed + Sigs(out), p, r') && Gated(signed, signed + Sigs(out), p, r, r')
  {
    var nv := w.newview;
    var recorded := r.(viewchanges := RecordWish(r.viewchanges, from, w));
    WishRecorded(c, signed, r, from, w);
    TallyOnlyKeeps(c, signed, p, r, recorded);
    var count := |Wishers(recorded.viewchanges, nv)|;
    var joins := count >= c.F() + 1 && nv > r.highestVcSent && nv > r.view;
    var joined := if joins then [Seal(ViewChange(p, nv, r.prepared, Garbage))] else [];
    SentNothing(signed);
    if joins {
      ComplaintKeeps(c, signed, p, recorded, nv);
    }
    assert ReplicaInv(c, signed + Sigs(joined), p, r') && Gated(signed, signed + Sigs(joined), p, r, r');
    if out != joined {
      var best, vcs :| Selects(c, recorded.viewchanges, nv, best) && Forwards(recorded.viewchanges, nv, vcs)
                       && out == joined + [Seal(NewView(p, nv, vcs, ValueOf(best), Garbage))];
      LeadKeeps(c, signed + Sigs(joined), p, r', nv, best, vcs);
      SigsAppend(signed, joined, [Seal(NewView(p, nv, vcs, ValueOf(best), Garbage))]);
      GatedTwice(signed, signed + Sigs(joined), signed + Sigs(out), p, r, r', r');
    }
  }

  // A replica that moves to a later view starts it with empty tallies.
  lemma NewViewKeeps(c: Config, signed: set<Signature>, p: Node, r: ReplicaState, view: nat, proposal: Option<Value>)
    requires c.Bounded() && ReplicaInv(c, signed, p, r) && view > r.view
    ensures var (r', out) := EnterView(p, r, view, proposal);
            ReplicaInv(c, signed + Sigs(out), p, r') && Gated(signed, signed + Sigs(out), p, r, r')
  {
    var (r', out) := EnterView(p, r, view, proposal);
    SentNothing(signed);
    assert TallyInv(c, signed, r');
    if proposal.Some? {
      VoteKeeps(c, signed, p, r, r', proposal.value);
    } else {
      assert VoteInv(signed, p, r');
    }
  }

  lemma RestartKeeps(c: Config, signed: set<Signature>, p: Node, r: ReplicaState)
    requires c.Bounded() && ReplicaInv(c, signed, p, r)
    ensures ReplicaInv(c, signed, p, Reload(r.disk)) && Gated(signed, signed, p, r, Reload(r.disk))
  {
  }

  /** A crash between the two writes reloads a state as good as any. */
  lemma HalfEnterKeeps(c: Config, signed: set<Signature>, p: Node, r: ReplicaState, view: nat, proposal: Option<Value>)
    requires c.Bounded() && ReplicaInv(c, signed, p, r) && view > r.view
    ensures var r' := Reload(Entering(r, view, proposal).disk);
            ReplicaInv(c, signed, p, r') && Gated(signed, signed, p, r, r')
  {
    assert VoteInv(signed, p, Entering(r, view, proposal));
  }

  lemma TimeoutKeeps(c: Config, signed: set<Signature>, p: Node, r: ReplicaState)
    requires c.Bounded() && ReplicaInv(c, signed, p, r)
    ensures var (r', out) := OnTimeout(p, r);
            ReplicaInv(c, signed + Sigs(out), p, r') && Gated(signed, signed + Sigs(out), p, r, r')
  {
    SentNothing(signed);
    if r.decided.None? {
      ComplaintKeeps(c, signed, p, r, OnTimeout(p, r).0.highestVcSent);
    }
  }

  lemma ProposeKeeps(c: Config, signed: set<Signature>, p: Node, r: ReplicaState, m: Value)
    requires c.Bounded() && ReplicaInv(c, signed, p, r)
    ensures var out := OnPropose(c, p, r, m);
            ReplicaInv(c, signed + Sigs(out), p, r) && Gated(signed, signed + Sigs(out), p, r, r)
  {
    SentNothing(signed);
    var out := OnPropose(c, p, r, m);
    if out != [] {
      var signed' := signed + Sigs(out);
      SentOne(signed, p, PrePrepare(p, r.view, m, Garbage));
      LeaderGrows(c, signed, signed', p);
      SilentKeeps(c, signed, signed', p, r);
    }
  }
}
