/**
  One replica of the PBFT-style consensus: its messages, its state, what each
  message arm does, and the imperative replica proved against those arms.

  Signatures are ideal: a signature that verifies for a member and a statement is
  the value Signature(member, statement), and statements are compared as values.
  */
module PbftReplica {
  import opened Options
  import opened Quorums

  type Node = nat
  type Value = string

  // ---------------------------------------------------------------- messages

  datatype Signature = Signature(signer: Node, statement: Statement) | Garbage

  datatype Cert = Cert(view: nat, value: Value, sigs: seq<(Node, Signature)>)

  // A VIEWCHANGE as a NEWVIEW forwards it.
  datatype Complaint = Complaint(from: Node, newview: nat, claim: Option<Cert>, sig: Signature)

  datatype Statement =
    | PrePrepareSt(view: nat, value: Value)
    | PrepareSt(view: nat, value: Value)
    | CommitSt(view: nat, value: Value)
    | ViewChangeSt(newview: nat, claim: Option<Cert>)
    | NewViewSt(view: nat, vcs: seq<Complaint>, proposal: Option<Value>)

  datatype Message =
    | PrePrepare(from: Node, view: nat, m: Value, sig: Signature)
    | Prepare(from: Node, view: nat, m: Value, sig: Signature)
    | Commit(from: Node, view: nat, m: Value, sig: Signature)
    | ViewChange(from: Node, newview: nat, claim: Option<Cert>, sig: Signature)
    | NewView(from: Node, view: nat, vcs: seq<Complaint>, proposal: Option<Value>, sig: Signature)

  /** What the envelope signature of a message covers. */
  function StatementOf(msg: Message): Statement {
    match msg
    case PrePrepare(_, view, m, _) => PrePrepareSt(view, m)
    case Prepare(_, view, m, _) => PrepareSt(view, m)
    case Commit(_, view, m, _) => CommitSt(view, m)
    case ViewChange(_, newview, claim, _) => ViewChangeSt(newview, claim)
    case NewView(_, view, vcs, proposal, _) => NewViewSt(view, vcs, proposal)
  }

  function Seal(msg: Message): Message {
    msg.(sig := Signature(msg.from, StatementOf(msg)))
  }

  // ----------------------------------------------------------- configuration

  /** How many of n members the program allows for as faulty. */
  function MaxFaulty(n: nat): nat
    requires n >= 1
  {
    (n - 1) / 3
  }

  datatype Config = Config(n: nat, faulty: set<Node>) {
    function F(): nat
      requires n >= 1
    {
      MaxFaulty(n)
    }

    /** At most f members are faulty. */
    ghost predicate Bounded() {
      n >= 1 && faulty <= Nodes(n) && |faulty| <= F()
    }

    /** And the two kinds of quorum meet in a correct member. */
    ghost predicate Valid() {
      Bounded() && n % 3 != 0
    }

    ghost predicate Correct(p: Node) {
      p < n && p !in faulty
    }

    /** The vote threshold, 2 * count > n + f. */
    predicate VoteQuorum(count: nat)
      requires n >= 1
    {
      2 * count > n + F()
    }

    function LeaderOf(view: nat): Node
      requires n >= 1
    {
      view % n
    }
  }

  predicate VerifyEnvelope(c: Config, msg: Message) {
    msg.from < c.n && msg.sig == Signature(msg.from, StatementOf(msg))
  }

  // ------------------------------------------------------------ certificates

  /** Position i of the certificate holds its signer's first signature, and that one verifies. */
  predicate CountsAt(c: Config, cert: Cert, i: nat)
    requires i < |cert.sigs|
  {
    && (forall j :: 0 <= j < i ==> cert.sigs[j].0 != cert.sigs[i].0)
    && cert.sigs[i].0 < c.n
    && cert.sigs[i].1 == Signature(cert.sigs[i].0, PrepareSt(cert.view, cert.value))
  }

  ghost function SupportersUpTo(c: Config, cert: Cert, k: nat): set<Node>
    requires k <= |cert.sigs|
  {
    set i: nat | i < k && CountsAt(c, cert, i) :: cert.sigs[i].0
  }

  /** The certificate carries a vote quorum of distinct members' signatures for (view, value). */
  ghost predicate CertVerifies(c: Config, cert: Cert)
    requires c.n >= 1
  {
    c.VoteQuorum(|SupportersUpTo(c, cert, |cert.sigs|)|)
  }

  lemma SupportersStep(c: Config, cert: Cert, k: nat)
    requires k < |cert.sigs|
    ensures SupportersUpTo(c, cert, k + 1) ==
            SupportersUpTo(c, cert, k) + if CountsAt(c, cert, k) then {cert.sigs[k].0} else {}
    ensures CountsAt(c, cert, k) ==> cert.sigs[k].0 !in SupportersUpTo(c, cert, k)
  {
    var now := SupportersUpTo(c, cert, k);
    var next := SupportersUpTo(c, cert, k + 1);
    forall p | p in next
      ensures p in now || (CountsAt(c, cert, k) && p == cert.sigs[k].0)
    {
      var i: nat :| i < k + 1 && CountsAt(c, cert, i) && cert.sigs[i].0 == p;
    }
    if CountsAt(c, cert, k) {
      assert cert.sigs[k].0 in next;
    }
  }

  function SignersUpTo(cert: Cert, k: nat): set<Node>
    requires k <= |cert.sigs|
  {
    set i: nat | i < k :: cert.sigs[i].0
  }

  lemma SignersStep(c: Config, cert: Cert, k: nat)
    requires k < |cert.sigs|
    ensures SignersUpTo(cert, k + 1) == SignersUpTo(cert, k) + {cert.sigs[k].0}
    ensures CountsAt(c, cert, k) <==>
            && cert.sigs[k].0 !in SignersUpTo(cert, k) && cert.sigs[k].0 < c.n
            && cert.sigs[k].1 == Signature(cert.sigs[k].0, PrepareSt(cert.view, cert.value))
  {
    if cert.sigs[k].0 !in SignersUpTo(cert, k) {
      forall j | 0 <= j < k
        ensures cert.sigs[j].0 != cert.sigs[k].0
      {
        assert cert.sigs[j].0 in SignersUpTo(cert, k);
      }
    }
  }

  /** One more listed signature counts if it is its signer's first and verifies. */
  lemma OneSignature(c: Config, cert: Cert, k: nat)
    requires k < |cert.sigs|
    ensures SignersUpTo(cert, k + 1) == SignersUpTo(cert, k) + {cert.sigs[k].0}
    ensures |SupportersUpTo(c, cert, k + 1)| == |SupportersUpTo(c, cert, k)| +
              if cert.sigs[k].0 !in SignersUpTo(cert, k) && cert.sigs[k].0 < c.n
                 && cert.sigs[k].1 == Signature(cert.sigs[k].0, PrepareSt(cert.view, cert.value)) then 1 else 0
  {
    SupportersStep(c, cert, k);
    SignersStep(c, cert, k);
  }

  method VerifyCert(c: Config, cert: Cert) returns (ok: bool)
    requires c.n >= 1
    ensures ok <==> CertVerifies(c, cert)
  {
    var seen: set<Node> := {};
    var validSigs := 0;
    for i := 0 to |cert.sigs|
      invariant seen == SignersUpTo(cert, i)
      invariant validSigs == |SupportersUpTo(c, cert, i)|
    {
      OneSignature(c, cert, i);
      var (from, sig) := cert.sigs[i];
      if from in seen {
        continue;
      }
      seen := seen + {from};
      if from < c.n && sig == Signature(from, PrepareSt(cert.view, cert.value)) {
        validSigs := validSigs + 1;
      }
    }
    ok := c.VoteQuorum(validSigs);
  }

  // ------------------------------------------------------------------- state

  // What the state file holds.
  datatype Durable = Durable(view: nat, myPrepare: Option<(nat, Value)>, prepared: Option<Cert>,
                             decided: Option<Value>, highestVcSent: nat)

  // The view a member asks for, the certificate it presents, its signature.
  datatype Wish = Wish(newview: nat, claim: Option<Cert>, sig: Signature)

  datatype ReplicaState = ReplicaState(
    view: nat,
    viewchanges: map<Node, Wish>,
    sentcommit: bool,
    decided: Option<Value>,
    preprepared: bool,
    myPrepare: Option<(nat, Value)>,
    prepared: Option<Cert>,
    prepares: map<Node, (Value, Signature)>,
    commits: map<Node, Value>,
    highestVcSent: nat,
    expected: Option<Value>,
    disk: Durable)

  function DurablePart(r: ReplicaState): Durable {
    Durable(r.view, r.myPrepare, r.prepared, r.decided, r.highestVcSent)
  }

  function Persist(r: ReplicaState): ReplicaState {
    r.(disk := DurablePart(r))
  }

  // A node without a state file starts from these values.
  const NO_FILE := Durable(0, None, None, None, 0)

  function Reload(d: Durable): ReplicaState {
    ReplicaState(d.view, map[], false, d.decided, d.myPrepare.Some? && d.myPrepare.value.0 == d.view,
                 d.myPrepare, d.prepared, map[], map[], d.highestVcSent, None, d)
  }

  // -------------------------------------------------------------- the arms

  function OrInsert<K, V>(m: map<K, V>, k: K, v: V): map<K, V> {
    if k in m then m else m[k := v]
  }

  function OnPrePrepare(c: Config, me: Node, r: ReplicaState, from: Node, v: nat, m: Value)
    : (ReplicaState, seq<Message>)
    requires c.n >= 1
  {
    if from == c.LeaderOf(r.view) && v == r.view && r.highestVcSent <= r.view && !r.preprepared
       && (r.expected.None? || r.expected.value == m)
    then (Persist(r.(preprepared := true, myPrepare := Some((v, m)))), [Seal(Prepare(me, v, m, Garbage))])
    else (r, [])
  }

  function VotersFor(prepares: map<Node, (Value, Signature)>, m: Value): set<Node> {
    set q | q in prepares && prepares[q].0 == m
  }

  // The certificate lists the votes for m in any order a map iteration may give.
  ghost predicate Assembles(prepares: map<Node, (Value, Signature)>, v: nat, m: Value, cert: Cert) {
    && cert.view == v && cert.value == m
    && |cert.sigs| == |VotersFor(prepares, m)|
    && (forall q :: q in VotersFor(prepares, m) ==> (q, prepares[q].1) in cert.sigs)
    && (forall i :: 0 <= i < |cert.sigs| ==>
         cert.sigs[i].0 in VotersFor(prepares, m) && cert.sigs[i].1 == prepares[cert.sigs[i].0].1)
    && (forall i, j :: 0 <= i < j < |cert.sigs| ==> cert.sigs[i].0 != cert.sigs[j].0)
  }

  ghost predicate OnPrepare(c: Config, me: Node, r: ReplicaState, from: Node, v: nat, m: Value, sig: Signature,
                            r': ReplicaState, out: seq<Message>)
    requires c.n >= 1
  {
    if v != r.view || r.highestVcSent > r.view then r' == r && out == [] else
    var prepares := OrInsert(r.prepares, from, (m, sig));
    var tallied := r.(prepares := prepares);
    if c.VoteQuorum(|VotersFor(prepares, m)|) && !r.sentcommit then
      && r'.prepared.Some?
      && Assembles(prepares, v, m, r'.prepared.value)
      && r' == Persist(tallied.(sentcommit := true, prepared := r'.prepared))
      && out == [Seal(Commit(me, v, m, Garbage))]
    else r' == tallied && out == []
  }

  function CommittersFor(commits: map<Node, Value>, m: Value): set<Node> {
    set q | q in commits && commits[q] == m
  }

  function OnCommit(c: Config, r: ReplicaState, from: Node, v: nat, m: Value): ReplicaState
    requires c.n >= 1
  {
    if v != r.view || r.highestVcSent > r.view then r else
    var tallied := r.(commits := OrInsert(r.commits, from, m));
    if c.VoteQuorum(|CommittersFor(tallied.commits, m)|) && r.decided.None?
    then Persist(tallied.(decided := Some(m)))
    else tallied
  }

  function RecordWish(wishes: map<Node, Wish>, from: Node, w: Wish): map<Node, Wish> {
    if from !in wishes || w.newview > wishes[from].newview then wishes[from := w] else wishes
  }

  function Wishers(wishes: map<Node, Wish>, nv: nat): set<Node> {
    set q | q in wishes && wishes[q].newview == nv
  }

  /** Members asking for nv whose claimed certificate verifies. */
  ghost function Claimants(c: Config, wishes: map<Node, Wish>, nv: nat): set<Node>
    requires c.n >= 1
  {
    set q | q in wishes && wishes[q].newview == nv && wishes[q].claim.Some? && CertVerifies(c, wishes[q].claim.value)
  }

  /** A possible outcome of the selection: a verifying claim of highest view, or none if there is no such claim. */
  ghost predicate Selects(c: Config, wishes: map<Node, Wish>, nv: nat, best: Option<Cert>)
    requires c.n >= 1
  {
    match best
    case None => Claimants(c, wishes, nv) == {}
    case Some(cert) =>
      && (exists q :: q in Claimants(c, wishes, nv) && wishes[q].claim == best)
      && (forall q :: q in Claimants(c, wishes, nv) ==> wishes[q].claim.value.view <= cert.view)
  }

  function ValueOf(best: Option<Cert>): Option<Value> {
    if best.Some? then Some(best.value.value) else None
  }

  // The forwarded records are the wishes for nv, each once, in any order.
  ghost predicate Forwards(wishes: map<Node, Wish>, nv: nat, vcs: seq<Complaint>) {
    && (forall q :: q in Wishers(wishes, nv) ==> Complaint(q, nv, wishes[q].claim, wishes[q].sig) in vcs)
    && (forall i :: 0 <= i < |vcs| ==>
         var q := vcs[i].from;
         q in Wishers(wishes, nv) && vcs[i] == Complaint(q, nv, wishes[q].claim, wishes[q].sig))
  }

  ghost predicate OnViewChange(c: Config, me: Node, r: ReplicaState, from: Node, w: Wish,
                               r': ReplicaState, out: seq<Message>)
    requires c.n >= 1
  {
    var nv := w.newview;
    var wishes := RecordWish(r.viewchanges, from, w);
    var recorded := r.(viewchanges := wishes);
    var count := |Wishers(wishes, nv)|;
    var joins := count >= c.F() + 1 && nv > r.highestVcSent && nv > r.view;
    var leads := count > 2 * c.F() && nv > r.view && c.LeaderOf(nv) == me;
    var joined := if joins then [Seal(ViewChange(me, nv, r.prepared, Garbage))] else [];
    && r' == (if joins then Persist(recorded.(highestVcSent := nv)) else recorded)
    && if leads then
         exists best, vcs ::
           && Selects(c, wishes, nv, best) && Forwards(wishes, nv, vcs)
           && out == joined + [Seal(NewView(me, nv, vcs, ValueOf(best), Garbage))]
       else out == joined
  }

  /** The forwarded records a replica accepts: for the right view, envelope valid, first one per sender. */
  function ValidRecords(c: Config, view: nat, vcs: seq<Complaint>): map<Node, Wish> {
    if vcs == [] then map[] else
    var valid := ValidRecords(c, view, vcs[..|vcs| - 1]);
    var x := vcs[|vcs| - 1];
    if x.newview == view && VerifyEnvelope(c, ViewChange(x.from, x.newview, x.claim, x.sig))
    then OrInsert(valid, x.from, Wish(x.newview, x.claim, x.sig))
    else valid
  }

  /** The first write of the NEWVIEW arm: the view is on disk, the proposal is not. */
  function Entering(r: ReplicaState, view: nat, proposal: Option<Value>): ReplicaState {
    Persist(r.(view := view, prepares := map[], commits := map[], preprepared := false,
               sentcommit := false, expected := proposal))
  }

  function EnterView(me: Node, r: ReplicaState, view: nat, proposal: Option<Value>): (ReplicaState, seq<Message>) {
    var entered := Entering(r, view, proposal);
    if proposal.Some?
    then (Persist(entered.(preprepared := true, myPrepare := Some((view, proposal.value)))),
          [Seal(Prepare(me, view, proposal.value, Garbage))])
    else (entered, [])
  }

  ghost predicate OnNewView(c: Config, me: Node, r: ReplicaState, from: Node, view: nat, vcs: seq<Complaint>,
                            proposal: Option<Value>, r': ReplicaState, out: seq<Message>)
    requires c.n >= 1
  {
    var valid := ValidRecords(c, view, vcs);
    if from != c.LeaderOf(view) || view <= r.view || |valid| < 2 * c.F() + 1 then r' == r && out == [] else
    exists best :: Selects(c, valid, view, best) &&
      if ValueOf(best) == proposal then (r', out) == EnterView(me, r, view, proposal)
      else r' == r && out == []
  }

  /** The listener: drop what the envelope check rejects, otherwise run the arm. */
  ghost predicate Handles(c: Config, me: Node, r: ReplicaState, msg: Message, r': ReplicaState, out: seq<Message>)
    requires c.n >= 1
  {
    if !VerifyEnvelope(c, msg) then r' == r && out == [] else
    match msg
    case PrePrepare(from, v, m, _) => (r', out) == OnPrePrepare(c, me, r, from, v, m)
    case Prepare(from, v, m, sig) => OnPrepare(c, me, r, from, v, m, sig, r', out)
    case Commit(from, v, m, _) => r' == OnCommit(c, r, from, v, m) && out == []
    case ViewChange(from, nv, claim, sig) => OnViewChange(c, me, r, from, Wish(nv, claim, sig), r', out)
    case NewView(from, view, vcs, proposal, _) => OnNewView(c, me, r, from, view, vcs, proposal, r', out)
  }

  /** The progress timer: complain one view past everything complained about so far. */
  function OnTimeout(me: Node, r: ReplicaState): (ReplicaState, seq<Message>) {
    if r.decided.Some? then (r, []) else
    var target := (if r.view >= r.highestVcSent then r.view else r.highestVcSent) + 1;
    (Persist(r.(highestVcSent := target)), [Seal(ViewChange(me, target, r.prepared, Garbage))])
  }

  /** The `propose` command. */
  function OnPropose(c: Config, me: Node, r: ReplicaState, m: Value): seq<Message>
    requires c.n >= 1
  {
    if c.LeaderOf(r.view) == me then [Seal(PrePrepare(me, r.view, m, Garbage))] else []
  }

  // ------------------------------------------------------ the loops and the node

  method SelectValue(c: Config, viewchanges: map<Node, Wish>, nv: nat) returns (maxPrepared: Option<Cert>)
    requires c.n >= 1
    ensures Selects(c, viewchanges, nv, maxPrepared)
  {
    maxPrepared := None;
    var rest := viewchanges.Keys;
    while rest != {}
      invariant rest <= viewchanges.Keys
      invariant maxPrepared.None? ==> forall q :: q in Claimants(c, viewchanges, nv) ==> q in rest
      invariant maxPrepared.Some? ==>
          exists q :: q in Claimants(c, viewchanges, nv) && viewchanges[q].claim == maxPrepared
      invariant maxPrepared.Some? ==> forall q :: q in Claimants(c, viewchanges, nv) && q !in rest ==>
                  viewchanges[q].claim.value.view <= maxPrepared.value.view
    {
      var q :| q in rest;
      rest := rest - {q};
      if viewchanges[q].newview == nv && viewchanges[q].claim.Some? {
        var ok := VerifyCert(c, viewchanges[q].claim.value);
        if ok {
          assert q in Claimants(c, viewchanges, nv);
          if maxPrepared.None? || viewchanges[q].claim.value.view > maxPrepared.value.view {
            maxPrepared := viewchanges[q].claim;
          }
        }
      }
    }
  }

  // The votes of `done` are listed, each once.
  ghost predicate Lists(prepares: map<Node, (Value, Signature)>, done: set<Node>, sigs: seq<(Node, Signature)>) {
    && done <= prepares.Keys && |sigs| == |done|
    && (forall q :: q in done ==> (q, prepares[q].1) in sigs)
    && (forall i :: 0 <= i < |sigs| ==> sigs[i].0 in done && sigs[i].1 == prepares[sigs[i].0].1)
    && (forall i, j :: 0 <= i < j < |sigs| ==> sigs[i].0 != sigs[j].0)
  }

  lemma ListsOneMore(prepares: map<Node, (Value, Signature)>, done: set<Node>, sigs: seq<(Node, Signature)>, q: Node)
    requires Lists(prepares, done, sigs) && q in prepares && q !in done
    ensures Lists(prepares, done + {q}, sigs + [(q, prepares[q].1)])
  {
    var more := sigs + [(q, prepares[q].1)];
    assert more[|sigs|] == (q, prepares[q].1);
    forall p | p in done
      ensures (p, prepares[p].1) in more
    {
      assert (p, prepares[p].1) in sigs;
    }
  }

  method CollectCert(prepares: map<Node, (Value, Signature)>, v: nat, m: Value) returns (cert: Cert)
    ensures Assembles(prepares, v, m, cert)
  {
    var sigs: seq<(Node, Signature)> := [];
    ghost var done: set<Node> := {};
    var rest := VotersFor(prepares, m);
    while rest != {}
      invariant rest + done == VotersFor(prepares, m) && rest !! done && Lists(prepares, done, sigs)
    {
      var q :| q in rest;
      ListsOneMore(prepares, done, sigs, q);
      rest := rest - {q};
      done := done + {q};
      sigs := sigs + [(q, prepares[q].1)];
    }
    assert done == VotersFor(prepares, m);
    cert := Cert(v, m, sigs);
  }

  method CollectWishes(wishes: map<Node, Wish>, nv: nat) returns (vcs: seq<Complaint>)
    ensures Forwards(wishes, nv, vcs)
  {
    vcs := [];
    var rest := Wishers(wishes, nv);
    while rest != {}
      invariant rest <= Wishers(wishes, nv)
      invariant forall q :: q in Wishers(wishes, nv) && q !in rest ==>
          Complaint(q, nv, wishes[q].claim, wishes[q].sig) in vcs
      invariant forall i :: 0 <= i < |vcs| ==>
                  var q := vcs[i].from;
                  q in Wishers(wishes, nv) && vcs[i] == Complaint(q, nv, wishes[q].claim, wishes[q].sig)
    {
      var q :| q in rest;
      rest := rest - {q};
      var x := Complaint(q, nv, wishes[q].claim, wishes[q].sig);
      vcs := vcs + [x];
      assert vcs[|vcs| - 1] == x;
    }
  }

  method CheckRecords(c: Config, view: nat, vcs: seq<Complaint>) returns (valid: map<Node, Wish>)
    ensures valid == ValidRecords(c, view, vcs)
  {
    valid := map[];
    for i := 0 to |vcs|
      invariant valid == ValidRecords(c, view, vcs[..i])
    {
      assert vcs[..i + 1][..i] == vcs[..i];
      var x := vcs[i];
      var rebuilt := ViewChange(x.from, x.newview, x.claim, x.sig);
      if x.newview == view && VerifyEnvelope(c, rebuilt) {
        valid := OrInsert(valid, x.from, Wish(x.newview, x.claim, x.sig));
      }
    }
    assert vcs[..|vcs|] == vcs;
  }

  class Replica {
    const c: Config
    const me: Node
    var view: nat
    var viewchanges: map<Node, Wish>
    var sentcommit: bool
    var decided: Option<Value>
    var preprepared: bool
    var myPrepare: Option<(nat, Value)>
    var prepared: Option<Cert>
    var prepares: map<Node, (Value, Signature)>
    var commits: map<Node, Value>
    var highestVcSent: nat
    var expected: Option<Value>
    var disk: Durable

    ghost function State(): ReplicaState
      reads this
    {
      ReplicaState(view, viewchanges, sentcommit, decided, preprepared, myPrepare, prepared,
                   prepares, commits, highestVcSent, expected, disk)
    }

    constructor (c: Config, me: Node, file: Option<Durable>)
      requires c.n >= 1
      ensures this.c == c && this.me == me
      ensures State() == Reload(if file.Some? then file.value else NO_FILE)
    {
      var d := if file.Some? then file.value else NO_FILE;
      this.c, this.me := c, me;
      view, viewchanges, sentcommit, decided := d.view, map[], false, d.decided;
      preprepared := d.myPrepare.Some? && d.myPrepare.value.0 == d.view;
      myPrepare, prepared, prepares, commits := d.myPrepare, d.prepared, map[], map[];
      highestVcSent, expected, disk := d.highestVcSent, None, d;
    }

    method PersistState()
      modifies this`disk
      ensures State() == Persist(old(State()))
    {
      disk := Durable(view, myPrepare, prepared, decided, highestVcSent);
    }

    method HandlePrePrepare(from: Node, v: nat, m: Value) returns (out: seq<Message>)
      requires c.n >= 1
      modifies this
      ensures (State(), out) == OnPrePrepare(c, me, old(State()), from, v, m)
    {
      out := [];
      if from == c.LeaderOf(view) && v == view && highestVcSent <= view && !preprepared
         && (expected.None? || expected.value == m)
      {
        preprepared := true;
        myPrepare := Some((v, m));
        PersistState();
        out := [Seal(Prepare(me, v, m, Garbage))];
      }
    }

    method HandlePrepare(from: Node, v: nat, m: Value, sig: Signature) returns (out: seq<Message>)
      requires c.n >= 1
      modifies this
      ensures OnPrepare(c, me, old(State()), from, v, m, sig, State(), out)
    {
      out := [];
      if v != view || highestVcSent > view {
        return;
      }
      prepares := OrInsert(prepares, from, (m, sig));
      var count := |VotersFor(prepares, m)|;
      if c.VoteQuorum(count) && !sentcommit {
        sentcommit := true;
        var cert := CollectCert(prepares, v, m);
        prepared := Some(cert);
        PersistState();
        out := [Seal(Commit(me, v, m, Garbage))];
      }
    }

    method HandleCommit(from: Node, v: nat, m: Value)
      requires c.n >= 1
      modifies this
      ensures State() == OnCommit(c, old(State()), from, v, m)
    {
      if v != view || highestVcSent > view {
        return;
      }
      commits := OrInsert(commits, from, m);
      var count := |CommittersFor(commits, m)|;
      if c.VoteQuorum(count) && decided.None? {
        decided := Some(m);
        PersistState();
      }
    }

    method HandleViewChange(from: Node, w: Wish) returns (out: seq<Message>)
      requires c.n >= 1
      modifies this
      ensures OnViewChange(c, me, old(State()), from, w, State(), out)
    {
      out := [];
      var nv := w.newview;
      viewchanges := RecordWish(viewchanges, from, w);
      var count := |Wishers(viewchanges, nv)|;
      if count >= c.F() + 1 && nv > highestVcSent && nv > view {
        highestVcSent := nv;
        PersistState();
        out := [Seal(ViewChange(me, nv, prepared, Garbage))];
      }
      if count > 2 * c.F() && nv > view && c.LeaderOf(nv) == me {
        var vcs := CollectWishes(viewchanges, nv);
        var best := SelectValue(c, viewchanges, nv);
        out := out + [Seal(NewView(me, nv, vcs, ValueOf(best), Garbage))];
      }
    }

    method Enter(newView: nat, proposal: Option<Value>) returns (out: seq<Message>)
      modifies this
      ensures (State(), out) == EnterView(me, old(State()), newView, proposal)
    {
      view := newView;
      prepares, commits := map[], map[];
      preprepared, sentcommit := false, false;
      expected := proposal;
      PersistState();
      assert State() == Entering(old(State()), newView, proposal);
      out := [];
      if proposal.Some? {
        preprepared := true;
        myPrepare := Some((newView, proposal.value));
        PersistState();
        out := [Seal(Prepare(me, newView, proposal.value, Garbage))];
      }
    }

    method HandleNewView(from: Node, newView: nat, vcs: seq<Complaint>, proposal: Option<Value>)
      returns (out: seq<Message>)
      requires c.n >= 1
      modifies this
      ensures OnNewView(c, me, old(State()), from, newView, vcs, proposal, State(), out)
    {
      out := [];
      if from != c.LeaderOf(newView) || newView <= view {
        return;
      }
      var valid := CheckRecords(c, newView, vcs);
      if |valid| < 2 * c.F() + 1 {
        return;
      }
      var best := SelectValue(c, valid, newView);
      if ValueOf(best) != proposal {
        return;
      }
      out := Enter(newView, proposal);
    }

    method Receive(msg: Message) returns (out: seq<Message>)
      requires c.n >= 1
      modifies this
      ensures Handles(c, me, old(State()), msg, State(), out)
    {
      out := [];
      if !VerifyEnvelope(c, msg) {
        return;
      }
      match msg {
        case PrePrepare(from, v, m, _) => out := HandlePrePrepare(from, v, m);
        case Prepare(from, v, m, sig) => out := HandlePrepare(from, v, m, sig);
        case Commit(from, v, m, _) => HandleCommit(from, v, m);
        case ViewChange(from, nv, claim, sig) => out := HandleViewChange(from, Wish(nv, claim, sig));
        case NewView(from, newView, vcs, proposal, _) => out := HandleNewView(from, newView, vcs, proposal);
      }
    }

    method TimerFires() returns (out: seq<Message>)
      modifies this
      ensures (State(), out) == OnTimeout(me, old(State()))
    {
      out := [];
      if decided.None? {
        var target := (if view >= highestVcSent then view else highestVcSent) + 1;
        highestVcSent := target;
        PersistState();
        out := [Seal(ViewChange(me, target, prepared, Garbage))];
      }
    }
  }
}
