/** The broadcast as a state machine with up to f arbitrary members, and its guarantees over all runs. */
module BrachaSafety {
  import opened Options
  import opened Quorums
  import opened BrachaNode

  // Node states, every signature correct members made, and what each node delivered.
  datatype System = System(nodes: seq<NodeState>, signed: set<Signature>, outputs: seq<Option<Value>>)

  datatype Step = Deliver(p: Node, msg: Message) | Broadcast(p: Node, m: Value)

  ghost predicate Init(c: Config, s: System) {
    && |s.nodes| == |s.outputs| == c.n
    && (forall p :: 0 <= p < c.n ==> s.nodes[p] == FRESH && s.outputs[p] == None)
    && s.signed == {}
  }

  ghost predicate Shaped(c: Config, s: System) {
    c.Valid() && |s.nodes| == |s.outputs| == c.n
  }

  function Sigs(out: seq<Message>): set<Signature> {
    set x | x in out :: x.sig
  }

  /** A correct node handles any message that forges no correct member's signature; a correct sender broadcasts. */
  ghost predicate NextStep(c: Config, s: System, s': System, step: Step)
    requires Shaped(c, s)
  {
    && c.Correct(step.p)
    && match step
       case Deliver(p, msg) =>
         && (msg.sig.Signature? && c.Correct(msg.sig.signer) ==> msg.sig in s.signed)
         && var e := Handle(c, p, s.nodes[p], msg);
            s' == s.(nodes := s.nodes[p := e.node], signed := s.signed + Sigs(e.out),
                     outputs := if e.output.Some? then s.outputs[p := e.output] else s.outputs)
       case Broadcast(p, m) =>
         c.sender == Some(p) && s' == s.(signed := s.signed + {Signature(p, SendKind, m)})
  }

  ghost predicate Next(c: Config, s: System, s': System)
    requires Shaped(c, s)
  {
    exists step :: NextStep(c, s, s', step)
  }

  ghost predicate IsRun(c: Config, run: seq<System>) {
    && |run| > 0
    && c.Valid()
    && Init(c, run[0])
    && (forall i :: 0 <= i < |run| ==> Shaped(c, run[i]))
    && (forall i :: 0 <= i < |run| - 1 ==> Next(c, run[i], run[i + 1]))
  }

  // ------------------------------------------------------------------ vocabulary

  ghost predicate Signed(s: System, p: Node, kind: Kind, m: Value) {
    Signature(p, kind, m) in s.signed
  }

  ghost predicate HasSigned(s: System, p: Node, kind: Kind) {
    exists m :: Signed(s, p, kind, m)
  }

  /** Members that signed (kind, m), every faulty member counted in. */
  ghost function Signers(c: Config, s: System, kind: Kind, m: Value): set<Node> {
    set p | p in Nodes(c.n) && (p in c.faulty || Signed(s, p, kind, m))
  }

  ghost predicate EchoQuorum(c: Config, s: System, m: Value)
    requires c.n >= 1
  {
    2 * |Signers(c, s, EchoKind, m)| > c.n + c.F()
  }

  // ------------------------------------------------------------------- invariant

  ghost predicate NodeInv(c: Config, s: System, p: Node)
    requires Shaped(c, s) && p < c.n
  {
    var r := s.nodes[p];
    && (forall m :: Signed(s, p, EchoKind, m) ==> r.sentecho)
    && (forall m, m' :: Signed(s, p, EchoKind, m) && Signed(s, p, EchoKind, m') ==> m == m')
    && (r.sentecho ==> HasSigned(s, p, EchoKind))
    && (forall m :: Signed(s, p, ReadyKind, m) ==> r.sentready)
    && (r.sentready ==> HasSigned(s, p, ReadyKind))
    && (r.delivered <==> s.outputs[p].Some?)
  }

  /** What the tallies hold was signed by the member it is filed under, or by a faulty one. */
  ghost predicate TallyInv(c: Config, s: System, p: Node)
    requires Shaped(c, s) && p < c.n
  {
    && (forall q :: q in s.nodes[p].echos ==> q in Signers(c, s, EchoKind, s.nodes[p].echos[q]))
    && (forall q :: q in s.nodes[p].readys ==> q in Signers(c, s, ReadyKind, s.nodes[p].readys[q]))
  }

  /** A tally at a threshold has been acted on. */
  ghost predicate ThresholdInv(c: Config, s: System, p: Node)
    requires Shaped(c, s) && p < c.n
  {
    var r := s.nodes[p];
    && (forall m :: 2 * |VotersFor(r.echos, m)| > c.n + c.F() ==> r.sentready)
    && (forall m :: |VotersFor(r.readys, m)| > c.F() ==> r.sentready)
    && (forall m :: |VotersFor(r.readys, m)| > 2 * c.F() ==> r.delivered)
  }

  ghost predicate SourceInv(c: Config, s: System)
    requires Shaped(c, s)
  {
    && (forall p: Node, m :: c.Correct(p) && Signed(s, p, EchoKind, m) ==>
         c.sender.Some? && (c.sender.value in c.faulty || Signed(s, c.sender.value, SendKind, m)))
    && (forall p: Node, m :: c.Correct(p) && Signed(s, p, ReadyKind, m) ==> EchoQuorum(c, s, m))
    && (forall p: Node :: c.Correct(p) && s.outputs[p].Some? ==>
         |Signers(c, s, ReadyKind, s.outputs[p].value)| > 2 * c.F())
  }

  ghost predicate Inv(c: Config, s: System) {
    && Shaped(c, s)
    && (forall p: Node :: c.Correct(p) ==> NodeInv(c, s, p) && TallyInv(c, s, p) && ThresholdInv(c, s, p))
    && SourceInv(c, s)
  }

  // ---------------------------------------------------------------- quorum facts

  lemma SignersGrow(c: Config, s: System, s': System, kind: Kind, m: Value)
    requires s.signed <= s'.signed
    ensures |Signers(c, s, kind, m)| <= |Signers(c, s', kind, m)|
  {
    SubsetSize(Signers(c, s, kind, m), Signers(c, s', kind, m));
  }

  lemma TallyIsBacked(c: Config, s: System, tally: map<Node, Value>, kind: Kind, m: Value)
    requires forall q :: q in tally ==> q in Signers(c, s, kind, tally[q])
    ensures |VotersFor(tally, m)| <= |Signers(c, s, kind, m)|
  {
    SubsetSize(VotersFor(tally, m), Signers(c, s, kind, m));
  }

  lemma CorrectSigner(c: Config, s: System, kind: Kind, m: Value) returns (p: Node)
    requires c.Valid() && |Signers(c, s, kind, m)| > c.F()
    ensures c.Correct(p) && Signed(s, p, kind, m)
  {
    p := OutsideMember(Signers(c, s, kind, m), c.faulty);
  }

  /** Two echo quorums share a correct member, which echoed only once. */
  lemma EchoQuorumsAgree(c: Config, s: System, m: Value, m': Value)
    requires Inv(c, s) && EchoQuorum(c, s, m) && EchoQuorum(c, s, m')
    ensures m == m'
  {
    var a, b := Signers(c, s, EchoKind, m), Signers(c, s, EchoKind, m');
    Overlap(c.n, a, b);
    var p := OutsideMember(a * b, c.faulty);
    assert Signed(s, p, EchoKind, m) && Signed(s, p, EchoKind, m');
    assert NodeInv(c, s, p);
  }

  /** All READYs of correct members carry one value. */
  lemma ReadysAgree(c: Config, s: System, p: Node, m: Value, q: Node, m': Value)
    requires Inv(c, s) && c.Correct(p) && c.Correct(q)
    requires Signed(s, p, ReadyKind, m) && Signed(s, q, ReadyKind, m')
    ensures m == m'
  {
    EchoQuorumsAgree(c, s, m, m');
  }

  // ----------------------------------------------------------------- every step

  /** A step of p adds at most the signature of one message. */
  ghost predicate Adds(c: Config, s: System, s': System, p: Node, out: seq<Message>) {
    && Shaped(c, s) && Shaped(c, s') && c.Correct(p)
    && s'.signed == s.signed + Sigs(out)
    && (forall x :: x in out ==> x == Seal(x.kind, p, x.m))
    && s'.nodes == s.nodes[p := s'.nodes[p]]
    && s'.outputs == s.outputs[p := s'.outputs[p]]
  }

  lemma AddsSigned(c: Config, s: System, s': System, p: Node, out: seq<Message>)
    requires Adds(c, s, s', p, out)
    ensures forall q: Node, kind, m :: Signed(s', q, kind, m) ==>
              Signed(s, q, kind, m) || (q == p && Seal(kind, p, m) in out)
    ensures forall q: Node, kind, m :: Signed(s, q, kind, m) ==> Signed(s', q, kind, m)
    ensures forall kind, m :: Seal(kind, p, m) in out ==> Signed(s', p, kind, m)
    ensures forall q: Node, kind :: HasSigned(s, q, kind) ==> HasSigned(s', q, kind)
  {
    forall kind, m | Seal(kind, p, m) in out
      ensures Signed(s', p, kind, m)
    {
      assert Seal(kind, p, m).sig in Sigs(out);
    }
    forall q: Node, kind | HasSigned(s, q, kind)
      ensures HasSigned(s', q, kind)
    {
      var m :| Signed(s, q, kind, m);
      assert Signed(s', q, kind, m);
    }
    forall q: Node, kind, m | Signed(s', q, kind, m)
      ensures Signed(s, q, kind, m) || (q == p && Seal(kind, p, m) in out)
    {
      if !Signed(s, q, kind, m) {
        var x :| x in out && x.sig == Signature(q, kind, m);
      }
    }
  }

  lemma OthersKeep(c: Config, s: System, s': System, p: Node, out: seq<Message>, q: Node)
    requires Inv(c, s) && Adds(c, s, s', p, out) && c.Correct(q) && q != p
    ensures NodeInv(c, s', q) && TallyInv(c, s', q) && ThresholdInv(c, s', q)
  {
    AddsSigned(c, s, s', p, out);
    assert NodeInv(c, s, q) && TallyInv(c, s, q) && ThresholdInv(c, s, q);
  }

  lemma SourcesKeep(c: Config, s: System, s': System, p: Node, out: seq<Message>)
    requires Inv(c, s) && Adds(c, s, s', p, out)
    requires forall m :: Seal(EchoKind, p, m) in out ==>
               c.sender.Some? && (c.sender.value in c.faulty || Signed(s, c.sender.value, SendKind, m))
    requires forall m :: Seal(ReadyKind, p, m) in out ==> EchoQuorum(c, s, m)
    requires s'.outputs[p] != s.outputs[p] ==>
              s'.outputs[p].Some? && |Signers(c, s, ReadyKind, s'.outputs[p].value)| > 2 * c.F()
    ensures SourceInv(c, s')
  {
    AddsSigned(c, s, s', p, out);
    ReadySourcesKeep(c, s, s', p, out);
    OutputSourcesKeep(c, s, s', p, out);
  }

  lemma ReadySourcesKeep(c: Config, s: System, s': System, p: Node, out: seq<Message>)
    requires Shaped(c, s) && SourceInv(c, s) && Adds(c, s, s', p, out)
    requires forall m :: Seal(ReadyKind, p, m) in out ==> EchoQuorum(c, s, m)
    ensures forall q: Node, m :: c.Correct(q) && Signed(s', q, ReadyKind, m) ==> EchoQuorum(c, s', m)
  {
    AddsSigned(c, s, s', p, out);
    forall q: Node, m | c.Correct(q) && Signed(s', q, ReadyKind, m)
      ensures EchoQuorum(c, s', m)
    {
      SignersGrow(c, s, s', EchoKind, m);
    }
  }

  lemma OutputSourcesKeep(c: Config, s: System, s': System, p: Node, out: seq<Message>)
    requires Shaped(c, s) && SourceInv(c, s) && Adds(c, s, s', p, out)
    requires s'.outputs[p] != s.outputs[p] ==>
              s'.outputs[p].Some? && |Signers(c, s, ReadyKind, s'.outputs[p].value)| > 2 * c.F()
    ensures forall q: Node :: c.Correct(q) && s'.outputs[q].Some? ==>
              |Signers(c, s', ReadyKind, s'.outputs[q].value)| > 2 * c.F()
  {
    forall q: Node | c.Correct(q) && s'.outputs[q].Some?
      ensures |Signers(c, s', ReadyKind, s'.outputs[q].value)| > 2 * c.F()
    {
      SignersGrow(c, s, s', ReadyKind, s'.outputs[q].value);
    }
  }

  lemma VotersStep(tally: map<Node, Value>, from: Node, m: Value, m': Value)
    ensures m' != m ==> VotersFor(OrInsert(tally, from, m), m') == VotersFor(tally, m')
  {
  }

  /** A step that keeps the sources, and node p's own part, keeps everything. */
  lemma StepKeeps(c: Config, s: System, s': System, p: Node, out: seq<Message>)
    requires Inv(c, s) && Adds(c, s, s', p, out) && SourceInv(c, s')
    requires NodeInv(c, s', p) && TallyInv(c, s', p) && ThresholdInv(c, s', p)
    ensures Inv(c, s')
  {
    forall q: Node | c.Correct(q)
      ensures NodeInv(c, s', q) && TallyInv(c, s', q) && ThresholdInv(c, s', q)
    {
      if q != p {
        OthersKeep(c, s, s', p, out, q);
      }
    }
  }

  ghost predicate Handled(c: Config, s: System, s': System, p: Node, e: Effect)
    requires Shaped(c, s) && p < c.n
  {
    s' == s.(nodes := s.nodes[p := e.node], signed := s.signed + Sigs(e.out),
             outputs := if e.output.Some? then s.outputs[p := e.output] else s.outputs)
  }

  lemma SendKeeps(c: Config, s: System, s': System, p: Node, from: Node, m: Value)
    requires Inv(c, s) && c.Correct(p) && from < c.n && (from in c.faulty || Signed(s, from, SendKind, m))
    requires Handled(c, s, s', p, OnSend(c, p, s.nodes[p], from, m))
    ensures Inv(c, s')
  {
    var e := OnSend(c, p, s.nodes[p], from, m);
    assert NodeInv(c, s, p) && TallyInv(c, s, p) && ThresholdInv(c, s, p);
    AddsSigned(c, s, s', p, e.out);
    SourcesKeep(c, s, s', p, e.out);
    assert e.out != [] ==> e.out[0] == Seal(EchoKind, p, m) && e.out[0] in e.out;
    StepKeeps(c, s, s', p, e.out);
  }

  lemma EchoThresholds(c: Config, s: System, s': System, p: Node, from: Node, m: Value)
    requires Shaped(c, s) && Shaped(c, s') && p < c.n && ThresholdInv(c, s, p)
    requires s'.nodes[p] == OnEcho(c, p, s.nodes[p], from, m).node
    ensures ThresholdInv(c, s', p)
  {
    forall m' | 2 * |VotersFor(s'.nodes[p].echos, m')| > c.n + c.F()
      ensures s'.nodes[p].sentready
    {
      VotersStep(s.nodes[p].echos, from, m, m');
    }
  }

  lemma EchoKeeps(c: Config, s: System, s': System, p: Node, from: Node, m: Value)
    requires Inv(c, s) && c.Correct(p) && from < c.n && (from in c.faulty || Signed(s, from, EchoKind, m))
    requires Handled(c, s, s', p, OnEcho(c, p, s.nodes[p], from, m))
    ensures Inv(c, s')
  {
    var e := OnEcho(c, p, s.nodes[p], from, m);
    assert NodeInv(c, s, p) && TallyInv(c, s, p);
    TallyIsBacked(c, s, e.node.echos, EchoKind, m);
    AddsSigned(c, s, s', p, e.out);
    SourcesKeep(c, s, s', p, e.out);
    EchoThresholds(c, s, s', p, from, m);
    assert e.out != [] ==> e.out[0] == Seal(ReadyKind, p, m) && e.out[0] in e.out;
    StepKeeps(c, s, s', p, e.out);
  }

  lemma ReadyThresholds(c: Config, s: System, s': System, p: Node, from: Node, m: Value)
    requires Shaped(c, s) && Shaped(c, s') && p < c.n && ThresholdInv(c, s, p)
    requires s'.nodes[p] == OnReady(c, p, s.nodes[p], from, m).node
    ensures ThresholdInv(c, s', p)
  {
    forall m'
      ensures |VotersFor(s'.nodes[p].readys, m')| > c.F() ==> s'.nodes[p].sentready
      ensures |VotersFor(s'.nodes[p].readys, m')| > 2 * c.F() ==> s'.nodes[p].delivered
    {
      VotersStep(s.nodes[p].readys, from, m, m');
    }
  }

  /** A value amplified has a correct READY behind it, and so an echo quorum. */
  lemma AmplifiedHasQuorum(c: Config, s: System, m: Value)
    requires Inv(c, s) && |Signers(c, s, ReadyKind, m)| > c.F()
    ensures EchoQuorum(c, s, m)
  {
    var q := CorrectSigner(c, s, ReadyKind, m);
  }

  lemma ReadyKeeps(c: Config, s: System, s': System, p: Node, from: Node, m: Value)
    requires Inv(c, s) && c.Correct(p) && from < c.n && (from in c.faulty || Signed(s, from, ReadyKind, m))
    requires Handled(c, s, s', p, OnReady(c, p, s.nodes[p], from, m))
    ensures Inv(c, s')
  {
    var e := OnReady(c, p, s.nodes[p], from, m);
    assert NodeInv(c, s, p) && TallyInv(c, s, p);
    TallyIsBacked(c, s, e.node.readys, ReadyKind, m);
    if e.out != [] {
      AmplifiedHasQuorum(c, s, m);
    }
    AddsSigned(c, s, s', p, e.out);
    SourcesKeep(c, s, s', p, e.out);
    ReadyThresholds(c, s, s', p, from, m);
    assert e.out != [] ==> e.out[0] == Seal(ReadyKind, p, m) && e.out[0] in e.out;
    StepKeeps(c, s, s', p, e.out);
  }

  lemma BroadcastKeeps(c: Config, s: System, s': System, p: Node, m: Value)
    requires Inv(c, s) && c.Correct(p) && s' == s.(signed := s.signed + {Signature(p, SendKind, m)})
    ensures Inv(c, s')
  {
    var out := [Seal(SendKind, p, m)];
    assert Sigs(out) == {Signature(p, SendKind, m)};
    assert NodeInv(c, s, p) && TallyInv(c, s, p) && ThresholdInv(c, s, p);
    AddsSigned(c, s, s', p, out);
    SourcesKeep(c, s, s', p, out);
    StepKeeps(c, s, s', p, out);
  }

  lemma StepKeepsInv(c: Config, s: System, s': System, step: Step)
    requires Inv(c, s) && NextStep(c, s, s', step)
    ensures Inv(c, s')
  {
    match step {
      case Broadcast(p, m) => BroadcastKeeps(c, s, s', p, m);
      case Deliver(p, msg) =>
        if VerifyEnvelope(c, msg) {
          match msg.kind {
            case SendKind => SendKeeps(c, s, s', p, msg.from, msg.m);
            case EchoKind => EchoKeeps(c, s, s', p, msg.from, msg.m);
            case ReadyKind => ReadyKeeps(c, s, s', p, msg.from, msg.m);
          }
        } else {
          assert Sigs([]) == {};
          assert s'.signed == s.signed && s'.nodes == s.nodes;
          assert s' == s;
        }
    }
  }

  // ------------------------------------------------------------------- all runs

  lemma {:induction false} RunInv(c: Config, run: seq<System>, i: nat)
    requires IsRun(c, run) && i < |run|
    ensures Inv(c, run[i])
  {
    if i == 0 {
      InitInv(c, run[0]);
    } else {
      RunInv(c, run, i - 1);
      assert Next(c, run[i - 1], run[i - 1 + 1]);
      var step :| NextStep(c, run[i - 1], run[i], step);
      StepKeepsInv(c, run[i - 1], run[i], step);
    }
  }

  lemma InitInv(c: Config, s: System)
    requires Shaped(c, s) && Init(c, s)
    ensures Inv(c, s)
  {
    assert forall m: Value :: VotersFor(map[], m) == {};
    forall p: Node | c.Correct(p)
      ensures NodeInv(c, s, p) && TallyInv(c, s, p) && ThresholdInv(c, s, p)
    {
    }
  }

  lemma {:induction false} RunGrows(c: Config, run: seq<System>, i: nat, j: nat)
    requires IsRun(c, run) && i <= j < |run|
    ensures run[i].signed <= run[j].signed
    decreases j
  {
    if i < j {
      RunGrows(c, run, i, j - 1);
      assert Next(c, run[j - 1], run[j - 1 + 1]);
    }
  }

  /** A delivered value has a correct READY behind it, then and later. */
  lemma DeliveredHasReady(c: Config, run: seq<System>, i: nat, p: Node, k: nat) returns (q: Node)
    requires IsRun(c, run) && i <= k < |run| && c.Correct(p) && run[i].outputs[p].Some?
    ensures c.Correct(q) && Signed(run[k], q, ReadyKind, run[i].outputs[p].value)
  {
    RunInv(c, run, i);
    RunGrows(c, run, i, k);
    q := CorrectSigner(c, run[i], ReadyKind, run[i].outputs[p].value);
  }

  /** Consistency: no two correct members deliver different values, whoever is faulty, the sender included. */
  lemma Consistency(c: Config, run: seq<System>, i: nat, p: Node, j: nat, q: Node)
    requires IsRun(c, run) && i < |run| && j < |run| && c.Correct(p) && c.Correct(q)
    requires run[i].outputs[p].Some? && run[j].outputs[q].Some?
    ensures run[i].outputs[p] == run[j].outputs[q]
  {
    var k := if i <= j then j else i;
    RunInv(c, run, k);
    var a := DeliveredHasReady(c, run, i, p, k);
    var b := DeliveredHasReady(c, run, j, q, k);
    ReadysAgree(c, run[k], a, run[i].outputs[p].value, b, run[j].outputs[q].value);
  }

  lemma OutputStays(c: Config, run: seq<System>, k: nat, p: Node)
    requires IsRun(c, run) && k + 1 < |run| && c.Correct(p)
    ensures run[k].outputs[p].Some? ==> run[k + 1].outputs[p] == run[k].outputs[p]
  {
    RunInv(c, run, k);
    assert NodeInv(c, run[k], p);
    assert Next(c, run[k], run[k + 1]);
    StepKeepsOutput(c, run[k], run[k + 1], p);
  }

  lemma StepKeepsOutput(c: Config, s: System, s': System, p: Node)
    requires Shaped(c, s) && Next(c, s, s') && c.Correct(p) && NodeInv(c, s, p)
    ensures s.outputs[p].Some? ==> s'.outputs[p] == s.outputs[p]
  {
  }

  /** No duplication: what a correct member delivered it delivers only once. */
  lemma DeliversOnce(c: Config, run: seq<System>, i: nat, j: nat, p: Node)
    requires IsRun(c, run) && i <= j < |run| && c.Correct(p) && run[i].outputs[p].Some?
    ensures run[j].outputs[p] == run[i].outputs[p]
  {
    forall k: nat
      ensures StaysAt(run, k, p)
    {
      if k + 1 < |run| {
        OutputStays(c, run, k, p);
      }
    }
    StaysOver(run, i, j, p);
  }

  ghost predicate StaysAt(run: seq<System>, k: nat, p: Node) {
    k + 1 < |run| && p < |run[k].outputs| && run[k].outputs[p].Some? ==>
      p < |run[k + 1].outputs| && run[k + 1].outputs[p] == run[k].outputs[p]
  }

  lemma {:induction false} StaysOver(run: seq<System>, i: nat, j: nat, p: Node)
    requires i <= j < |run| && p < |run[i].outputs| && run[i].outputs[p].Some? && forall k: nat :: StaysAt(run, k, p)
    ensures p < |run[j].outputs| && run[j].outputs[p] == run[i].outputs[p]
    decreases j
  {
    if i < j {
      StaysOver(run, i, j - 1, p);
      assert StaysAt(run, j - 1, p);
    }
  }

  /** Integrity: with a correct sender, only what it broadcast is delivered. */
  lemma Integrity(c: Config, run: seq<System>, i: nat, p: Node)
    requires IsRun(c, run) && i < |run| && c.Correct(p) && run[i].outputs[p].Some?
    ensures c.sender.Some?
    ensures c.sender.value !in c.faulty ==> Signed(run[i], c.sender.value, SendKind, run[i].outputs[p].value)
  {
    RunInv(c, run, i);
    var m := run[i].outputs[p].value;
    var q := DeliveredHasReady(c, run, i, p, i);
    var e := CorrectSigner(c, run[i], EchoKind, m);
  }

  // ------------------------------------------------------------------- totality

  ghost function CorrectMembers(c: Config): set<Node> {
    Nodes(c.n) - c.faulty
  }

  lemma ManyCorrect(c: Config)
    requires c.Valid()
    ensures |CorrectMembers(c)| >= 2 * c.F() + 1 && 2 * |CorrectMembers(c)| > c.n + c.F()
  {
    assert CorrectMembers(c) + c.faulty == Nodes(c.n);
  }

  /** Every READY a correct member sent has been handled by every correct member. */
  ghost predicate ReadysHandled(c: Config, s: System)
    requires Shaped(c, s)
  {
    forall p: Node, q: Node, m :: c.Correct(p) && c.Correct(q) && Signed(s, p, ReadyKind, m) ==> p in s.nodes[q].readys
  }

  // A handled READY of a correct member is filed under the value it was sent for.
  lemma HandledReady(c: Config, s: System, q: Node, p: Node, m: Value)
    requires Inv(c, s) && ReadysHandled(c, s) && c.Correct(p) && c.Correct(q) && Signed(s, p, ReadyKind, m)
    ensures p in VotersFor(s.nodes[q].readys, m)
  {
    assert TallyInv(c, s, q);
    ReadysAgree(c, s, p, m, p, s.nodes[q].readys[p]);
  }

  /** More than f correct READYs for m, all handled, make everybody send READY. */
  lemma EveryoneReady(c: Config, s: System, m: Value, a: set<Node>, q: Node)
    requires Inv(c, s) && ReadysHandled(c, s) && c.Correct(q)
    requires |a| > c.F() && forall p :: p in a ==> c.Correct(p) && Signed(s, p, ReadyKind, m)
    ensures Signed(s, q, ReadyKind, m)
  {
    forall p | p in a
      ensures p in VotersFor(s.nodes[q].readys, m)
    {
      HandledReady(c, s, q, p, m);
    }
    SubsetSize(a, VotersFor(s.nodes[q].readys, m));
    assert ThresholdInv(c, s, q) && NodeInv(c, s, q);
    var m' :| Signed(s, q, ReadyKind, m');
    var p := OutsideMember(a, {});
    ReadysAgree(c, s, q, m', p, m);
  }

  lemma EveryoneReadyDelivers(c: Config, s: System, m: Value, q: Node)
    requires Inv(c, s) && ReadysHandled(c, s) && c.Correct(q)
    requires forall p :: p in CorrectMembers(c) ==> Signed(s, p, ReadyKind, m)
    ensures s.outputs[q] == Some(m)
  {
    var a := CorrectMembers(c);
    forall p | p in a
      ensures p in VotersFor(s.nodes[q].readys, m)
    {
      HandledReady(c, s, q, p, m);
    }
    ManyCorrect(c);
    SubsetSize(a, VotersFor(s.nodes[q].readys, m));
    assert ThresholdInv(c, s, q) && NodeInv(c, s, q);
    var p := CorrectSigner(c, s, ReadyKind, s.outputs[q].value);
    ReadysAgree(c, s, p, s.outputs[q].value, q, m);
  }

  /**
    Totality: once every correct READY has been handled by every correct member, if one has delivered, all have, the
    same value.
    */
  lemma Totality(c: Config, run: seq<System>, i: nat, p: Node, q: Node)
    requires IsRun(c, run) && i < |run| && c.Correct(p) && c.Correct(q)
    requires ReadysHandled(c, run[i]) && run[i].outputs[p].Some?
    ensures run[i].outputs[q] == run[i].outputs[p]
  {
    var s, m := run[i], run[i].outputs[p].value;
    RunInv(c, run, i);
    var a := Signers(c, s, ReadyKind, m) - c.faulty;
    assert |Signers(c, s, ReadyKind, m)| <= |a + c.faulty| <= |a| + |c.faulty| by {
      SubsetSize(Signers(c, s, ReadyKind, m), a + c.faulty);
    }
    forall x | x in CorrectMembers(c)
      ensures Signed(s, x, ReadyKind, m)
    {
      EveryoneReady(c, s, m, a, x);
    }
    EveryoneReadyDelivers(c, s, m, q);
  }

  ghost predicate EchosHandled(c: Config, s: System)
    requires Shaped(c, s)
  {
    forall p: Node, q: Node, m :: c.Correct(p) && c.Correct(q) && Signed(s, p, EchoKind, m) ==> p in s.nodes[q].echos
  }

  /** Every correct SEND and ECHO, too, has been handled by every correct member. */
  ghost predicate AllHandled(c: Config, s: System)
    requires Shaped(c, s)
  {
    && ReadysHandled(c, s) && EchosHandled(c, s)
    && (forall q: Node, m :: c.Correct(q) && c.sender.Some? && Signed(s, c.sender.value, SendKind, m) ==>
         s.nodes[q].sentecho)
  }

  /**
    Validity: if a correct sender broadcast m and nothing else, and all correct messages have been handled, every
    correct member delivered m.
    */
  lemma Validity(c: Config, run: seq<System>, i: nat, m: Value, q: Node)
    requires IsRun(c, run) && i < |run| && c.Correct(q) && AllHandled(c, run[i])
    requires c.sender.Some? && c.Correct(c.sender.value)
    requires forall m' :: Signed(run[i], c.sender.value, SendKind, m') <==> m' == m
    ensures run[i].outputs[q] == Some(m)
  {
    var s := run[i];
    RunInv(c, run, i);
    forall x | x in CorrectMembers(c)
      ensures Signed(s, x, EchoKind, m)
    {
      assert NodeInv(c, s, x);
      assert Signed(s, c.sender.value, SendKind, m);
      var m' :| Signed(s, x, EchoKind, m');
    }
    forall x | x in CorrectMembers(c)
      ensures Signed(s, x, ReadyKind, m)
    {
      EchoedReady(c, s, m, x);
    }
    EveryoneReadyDelivers(c, s, m, q);
  }

  lemma EchoedReady(c: Config, s: System, m: Value, x: Node)
    requires Inv(c, s) && EchosHandled(c, s) && c.Correct(x)
    requires forall p :: p in CorrectMembers(c) ==> Signed(s, p, EchoKind, m)
    ensures Signed(s, x, ReadyKind, m)
  {
    var a := CorrectMembers(c);
    ManyCorrect(c);
    forall p | p in a
      ensures p in VotersFor(s.nodes[x].echos, m)
    {
      assert TallyInv(c, s, x) && NodeInv(c, s, p);
    }
    SubsetSize(a, VotersFor(s.nodes[x].echos, m));
    SubsetSize(a, Signers(c, s, EchoKind, m));
    assert ThresholdInv(c, s, x) && NodeInv(c, s, x);
    var m' :| Signed(s, x, ReadyKind, m');
    EchoQuorumsAgree(c, s, m, m');
  }
}
