/**
  Totality and validity over the steps of a run: what a member has handled is what the run
  has delivered to it. And with a correct sender there is always a run in which every
  correct member delivers what it broadcast.
  */
module BrachaReach {
  import opened Options
  import opened BrachaNode
  import opened BrachaSafety

  /** By time i the run has delivered p's signed message (kind, m) to q. */
  ghost predicate Handed(c: Config, run: seq<System>, i: nat, q: Node, kind: Kind, p: Node, m: Value)
    requires i < |run|
  {
    exists a :: HandedAt(c, run, i, a, q, kind, p, m)
  }

  ghost predicate HandedAt(c: Config, run: seq<System>, i: nat, a: nat, q: Node, kind: Kind, p: Node, m: Value)
    requires i < |run|
  {
    a < i && Shaped(c, run[a]) && NextStep(c, run[a], run[a + 1], Deliver(q, Seal(kind, p, m)))
  }

  /** What a member remembers of having handled p's message. */
  ghost predicate Noted(c: Config, s: System, q: Node, kind: Kind, p: Node)
    requires q < |s.nodes|
  {
    match kind
    case SendKind => c.sender == Some(p) ==> s.nodes[q].sentecho
    case EchoKind => p in s.nodes[q].echos
    case ReadyKind => p in s.nodes[q].readys
  }

  lemma HandingNotes(c: Config, s: System, s': System, q: Node, kind: Kind, p: Node, m: Value)
    requires Shaped(c, s) && Shaped(c, s') && NextStep(c, s, s', Deliver(q, Seal(kind, p, m))) && p < c.n
    ensures Noted(c, s', q, kind, p)
  {
  }

  lemma StepKeepsNotes(c: Config, s: System, s': System, q: Node, kind: Kind, p: Node)
    requires Shaped(c, s) && Shaped(c, s') && Next(c, s, s') && q < c.n && Noted(c, s, q, kind, p)
    ensures Noted(c, s', q, kind, p)
  {
  }

  lemma {:induction false} NotesStay(c: Config, run: seq<System>, a: nat, i: nat, q: Node, kind: Kind, p: Node)
    requires IsRun(c, run) && a <= i < |run| && q < c.n && Noted(c, run[a], q, kind, p)
    ensures Noted(c, run[i], q, kind, p)
    decreases i
  {
    if a < i {
      NotesStay(c, run, a, i - 1, q, kind, p);
      assert Next(c, run[i - 1], run[i - 1 + 1]);
      StepKeepsNotes(c, run[i - 1], run[i], q, kind, p);
    }
  }

  lemma HandedIsNoted(c: Config, run: seq<System>, i: nat, q: Node, kind: Kind, p: Node, m: Value)
    requires IsRun(c, run) && i < |run| && p < c.n && q < c.n && Handed(c, run, i, q, kind, p, m)
    ensures Noted(c, run[i], q, kind, p)
  {
    var a: nat :| HandedAt(c, run, i, a, q, kind, p, m);
    RunIsShaped(c, run, a + 1);
    HandingNotes(c, run[a], run[a + 1], q, kind, p, m);
    NotesStay(c, run, a + 1, i, q, kind, p);
  }

  lemma RunIsShaped(c: Config, run: seq<System>, i: nat)
    requires IsRun(c, run) && i < |run|
    ensures Shaped(c, run[i])
  {
  }

  // -------------------------------------------------------------- totality, validity

  /** Every message of this kind that a correct member signed has been delivered to every correct member. */
  ghost predicate AllHanded(c: Config, run: seq<System>, i: nat, kind: Kind)
    requires i < |run|
  {
    forall p: Node, q: Node, m :: c.Correct(p) && c.Correct(q) && Signed(run[i], p, kind, m) ==>
      Handed(c, run, i, q, kind, p, m)
  }

  lemma ReadysAreHandled(c: Config, run: seq<System>, i: nat)
    requires IsRun(c, run) && i < |run| && AllHanded(c, run, i, ReadyKind)
    ensures ReadysHandled(c, run[i])
  {
    forall p: Node, q: Node, m | c.Correct(p) && c.Correct(q) && Signed(run[i], p, ReadyKind, m)
      ensures p in run[i].nodes[q].readys
    {
      assert Handed(c, run, i, q, ReadyKind, p, m);
      HandedIsNoted(c, run, i, q, ReadyKind, p, m);
    }
  }

  /**
    Totality: once the run has delivered every READY of a correct member to every correct
    member, if one has delivered, all have, the same value.
    */
  lemma TotalityOfSteps(c: Config, run: seq<System>, i: nat, p: Node, q: Node)
    requires IsRun(c, run) && i < |run| && c.Correct(p) && c.Correct(q)
    requires AllHanded(c, run, i, ReadyKind) && run[i].outputs[p].Some?
    ensures run[i].outputs[q] == run[i].outputs[p]
  {
    ReadysAreHandled(c, run, i);
    Totality(c, run, i, p, q);
  }

  ghost predicate EverythingHanded(c: Config, run: seq<System>, i: nat)
    requires i < |run|
  {
    forall kind :: AllHanded(c, run, i, kind)
  }

  lemma EverythingIsHandled(c: Config, run: seq<System>, i: nat)
    requires IsRun(c, run) && i < |run| && EverythingHanded(c, run, i)
    requires c.sender.Some? && c.Correct(c.sender.value)
    ensures AllHandled(c, run[i])
  {
    assert AllHanded(c, run, i, ReadyKind) && AllHanded(c, run, i, EchoKind) && AllHanded(c, run, i, SendKind);
    ReadysAreHandled(c, run, i);
    forall p: Node, q: Node, m | c.Correct(p) && c.Correct(q) && Signed(run[i], p, EchoKind, m)
      ensures p in run[i].nodes[q].echos
    {
      assert Handed(c, run, i, q, EchoKind, p, m);
      HandedIsNoted(c, run, i, q, EchoKind, p, m);
    }
    forall q: Node, m | c.Correct(q) && Signed(run[i], c.sender.value, SendKind, m)
      ensures run[i].nodes[q].sentecho
    {
      assert Handed(c, run, i, q, SendKind, c.sender.value, m);
      HandedIsNoted(c, run, i, q, SendKind, c.sender.value, m);
    }
  }

  /**
    Validity: if a correct sender broadcast m and nothing else, and the run has delivered
    every message of a correct member to every correct member, every correct member
    delivered m.
    */
  lemma ValidityOfSteps(c: Config, run: seq<System>, i: nat, m: Value, q: Node)
    requires IsRun(c, run) && i < |run| && c.Correct(q) && EverythingHanded(c, run, i)
    requires c.sender.Some? && c.Correct(c.sender.value)
    requires forall m' :: Signed(run[i], c.sender.value, SendKind, m') <==> m' == m
    ensures run[i].outputs[q] == Some(m)
  {
    EverythingIsHandled(c, run, i);
    Validity(c, run, i, m, q);
  }

  // ------------------------------------------------------------------ a run that delivers

  ghost function Last(run: seq<System>): System
    requires |run| > 0
  {
    run[|run| - 1]
  }

  /** The run goes on, without new broadcasts. */
  ghost predicate Extends(c: Config, run: seq<System>, more: seq<System>) {
    && IsRun(c, more) && 0 < |run| <= |more| && more[..|run|] == run
    && Last(run).signed <= Last(more).signed && SameSends(Last(run), Last(more))
  }

  ghost predicate SameSends(s: System, s': System) {
    forall p: Node, m :: Signed(s', p, SendKind, m) <==> Signed(s, p, SendKind, m)
  }

  lemma ExtendsSelf(c: Config, run: seq<System>)
    requires IsRun(c, run)
    ensures Extends(c, run, run)
  {
  }

  lemma ExtendsTwice(c: Config, a: seq<System>, b: seq<System>, d: seq<System>)
    requires Extends(c, a, b) && Extends(c, b, d)
    ensures Extends(c, a, d)
  {
    assert d[..|a|] == d[..|b|][..|a|];
  }

  lemma StepOn(c: Config, run: seq<System>, s: System, step: Step) returns (more: seq<System>)
    requires IsRun(c, run) && NextStep(c, Last(run), s, step)
    ensures IsRun(c, more) && more == run + [s]
  {
    more := run + [s];
    forall j | 0 <= j < |more| - 1
      ensures Next(c, more[j], more[j + 1])
    {
      if j < |run| - 1 {
        assert Next(c, run[j], run[j + 1]);
      } else {
        assert NextStep(c, more[j], more[j + 1], step);
      }
    }
  }

  // To whom, from whom.
  type Pair = (Node, Node)

  /** At its end the run has delivered p's message (kind, m) to q, for each (q, p) in the set. */
  ghost predicate PairsHanded(c: Config, run: seq<System>, kind: Kind, m: Value, done: set<Pair>)
    requires |run| > 0
  {
    forall x :: x in done ==> Handed(c, run, |run| - 1, x.0, kind, x.1, m)
  }

  ghost predicate PairsSigned(c: Config, s: System, kind: Kind, m: Value, todo: set<Pair>) {
    forall x :: x in todo ==> c.Correct(x.0) && c.Correct(x.1) && Signed(s, x.1, kind, m)
  }

  lemma HandOne(c: Config, run: seq<System>, q: Node, kind: Kind, p: Node, m: Value) returns (more: seq<System>)
    requires IsRun(c, run) && c.Correct(q) && c.Correct(p) && Signed(Last(run), p, kind, m)
    ensures Extends(c, run, more) && Handed(c, more, |more| - 1, q, kind, p, m)
  {
    var s, msg := Last(run), Seal(kind, p, m);
    var e := Handle(c, q, s.nodes[q], msg);
    var s' := s.(nodes := s.nodes[q := e.node], signed := s.signed + Sigs(e.out),
                 outputs := if e.output.Some? then s.outputs[q := e.output] else s.outputs);
    more := StepOn(c, run, s', Deliver(q, msg));
    DeliveriesSendNothing(c, s, s', q, msg);
    assert HandedAt(c, more, |more| - 1, |run| - 1, q, kind, p, m);
  }

  lemma StaysHanded(c: Config, run: seq<System>, more: seq<System>, q: Node, kind: Kind, p: Node, m: Value)
    requires Extends(c, run, more) && Handed(c, run, |run| - 1, q, kind, p, m)
    ensures Handed(c, more, |more| - 1, q, kind, p, m)
  {
    var a: nat :| HandedAt(c, run, |run| - 1, a, q, kind, p, m);
    assert more[a] == run[a] && more[a + 1] == run[a + 1];
    assert HandedAt(c, more, |more| - 1, a, q, kind, p, m);
  }

  lemma PairsStay(c: Config, run: seq<System>, more: seq<System>, kind: Kind, m: Value, done: set<Pair>)
    requires Extends(c, run, more) && PairsHanded(c, run, kind, m, done)
    ensures PairsHanded(c, more, kind, m, done)
  {
    forall x | x in done
      ensures Handed(c, more, |more| - 1, x.0, kind, x.1, m)
    {
      StaysHanded(c, run, more, x.0, kind, x.1, m);
    }
  }

  lemma HandMore(c: Config, run: seq<System>, kind: Kind, m: Value, done: set<Pair>, x: Pair)
    returns (more: seq<System>)
    requires IsRun(c, run) && PairsHanded(c, run, kind, m, done) && PairsSigned(c, Last(run), kind, m, {x})
    ensures Extends(c, run, more) && PairsHanded(c, more, kind, m, done + {x})
  {
    assert x in {x};
    more := HandOne(c, run, x.0, kind, x.1, m);
    PairsStay(c, run, more, kind, m, done);
  }

  lemma Regroup(done: set<Pair>, todo: set<Pair>, x: Pair)
    requires x in todo
    ensures done + {x} + (todo - {x}) == done + todo
  {
  }

  lemma HandAll(c: Config, run: seq<System>, kind: Kind, m: Value, done: set<Pair>, todo: set<Pair>)
    returns (more: seq<System>)
    requires IsRun(c, run) && PairsHanded(c, run, kind, m, done) && PairsSigned(c, Last(run), kind, m, todo)
    ensures Extends(c, run, more) && PairsHanded(c, more, kind, m, done + todo)
    decreases |todo|
  {
    if todo == {} {
      more := run;
      ExtendsSelf(c, run);
      assert done + todo == done;
    } else {
      var x :| x in todo;
      assert PairsSigned(c, Last(run), kind, m, {x});
      var next := HandMore(c, run, kind, m, done, x);
      assert PairsSigned(c, Last(next), kind, m, todo - {x});
      more := HandAll(c, next, kind, m, done + {x}, todo - {x});
      ExtendsTwice(c, run, next, more);
      Regroup(done, todo, x);
    }
  }

  ghost function Pairs(c: Config): set<Pair> {
    set q, p | q in CorrectMembers(c) && p in CorrectMembers(c) :: (q, p)
  }

  /** Every correct member signed (kind, m), and all have been handed that by all. */
  ghost predicate Exchanged(c: Config, run: seq<System>, kind: Kind, m: Value)
    requires |run| > 0
  {
    && (forall p :: p in CorrectMembers(c) ==> Signed(Last(run), p, kind, m))
    && PairsHanded(c, run, kind, m, Pairs(c))
  }

  lemma Exchange(c: Config, run: seq<System>, kind: Kind, m: Value) returns (more: seq<System>)
    requires IsRun(c, run) && forall p :: p in CorrectMembers(c) ==> Signed(Last(run), p, kind, m)
    ensures Extends(c, run, more) && Exchanged(c, more, kind, m)
  {
    more := HandAll(c, run, kind, m, {}, Pairs(c));
    assert {} + Pairs(c) == Pairs(c);
  }

  lemma ExchangeStays(c: Config, run: seq<System>, more: seq<System>, kind: Kind, m: Value)
    requires Extends(c, run, more) && Exchanged(c, run, kind, m)
    ensures Exchanged(c, more, kind, m)
  {
    PairsStay(c, run, more, kind, m, Pairs(c));
  }

  /** Only the sender's own broadcasts put a SEND among the signatures. */
  lemma DeliveriesSendNothing(c: Config, s: System, s': System, q: Node, msg: Message)
    requires Shaped(c, s) && NextStep(c, s, s', Deliver(q, msg))
    ensures SameSends(s, s') && s.signed <= s'.signed
  {
  }

  /** The sender has broadcast m, and nothing else has been. */
  ghost predicate Launched(c: Config, s: System, m: Value) {
    && c.sender.Some? && c.Correct(c.sender.value)
    && forall p: Node, m' :: Signed(s, p, SendKind, m') <==> p == c.sender.value && m' == m
  }

  lemma Launch(c: Config, m: Value) returns (run: seq<System>)
    requires c.Valid() && c.sender.Some? && c.Correct(c.sender.value)
    ensures IsRun(c, run) && Launched(c, Last(run), m)
  {
    var s0 := System(seq(c.n, _ => FRESH), {}, seq(c.n, _ => None));
    var s1 := s0.(signed := {Signature(c.sender.value, SendKind, m)});
    assert s0.signed + s1.signed == s1.signed;
    run := StepOn(c, [s0], s1, Broadcast(c.sender.value, m));
  }

  ghost function SendPairs(c: Config): set<Pair>
    requires c.sender.Some?
  {
    set q | q in CorrectMembers(c) :: (q, c.sender.value)
  }

  /** Whoever was handed the SEND has echoed it. */
  lemma AllEchoed(c: Config, run: seq<System>, m: Value)
    requires IsRun(c, run) && Launched(c, Last(run), m) && PairsHanded(c, run, SendKind, m, SendPairs(c))
    ensures forall x :: x in CorrectMembers(c) ==> Signed(Last(run), x, EchoKind, m)
  {
    var last := |run| - 1;
    RunInv(c, run, last);
    forall x | x in CorrectMembers(c)
      ensures Signed(Last(run), x, EchoKind, m)
    {
      assert (x, c.sender.value) in SendPairs(c);
      HandedIsNoted(c, run, last, x, SendKind, c.sender.value, m);
      assert NodeInv(c, run[last], x);
      var m' :| Signed(run[last], x, EchoKind, m');
    }
  }

  /** Nobody correct echoed anything else, so every ECHO has been handled. */
  lemma EchosAreHandled(c: Config, run: seq<System>, m: Value)
    requires IsRun(c, run) && Exchanged(c, run, EchoKind, m)
    ensures EchosHandled(c, Last(run)) && AllHanded(c, run, |run| - 1, EchoKind)
  {
    var last := |run| - 1;
    RunInv(c, run, last);
    EchosAreHanded(c, run, m);
    forall p: Node, q: Node, m' | c.Correct(p) && c.Correct(q) && Signed(run[last], p, EchoKind, m')
      ensures p in run[last].nodes[q].echos
    {
      assert NodeInv(c, run[last], p);
      EchoIsHandled(c, run, m, p, q, m');
    }
  }

  lemma EchosAreHanded(c: Config, run: seq<System>, m: Value)
    requires IsRun(c, run) && Exchanged(c, run, EchoKind, m) && Inv(c, Last(run))
    ensures AllHanded(c, run, |run| - 1, EchoKind)
  {
    var last := |run| - 1;
    forall p: Node, q: Node, m' | c.Correct(p) && c.Correct(q) && Signed(run[last], p, EchoKind, m')
      ensures Handed(c, run, last, q, EchoKind, p, m')
    {
      assert NodeInv(c, run[last], p);
      EchoIsHandled(c, run, m, p, q, m');
    }
  }

  lemma EchoIsHandled(c: Config, run: seq<System>, m: Value, p: Node, q: Node, m': Value)
    requires IsRun(c, run) && Exchanged(c, run, EchoKind, m) && c.Correct(p) && c.Correct(q)
    requires NodeInv(c, Last(run), p) && Signed(Last(run), p, EchoKind, m')
    ensures m' == m && p in Last(run).nodes[q].echos && Handed(c, run, |run| - 1, q, EchoKind, p, m')
  {
    assert p in CorrectMembers(c);
    assert (q, p) in Pairs(c);
    HandedIsNoted(c, run, |run| - 1, q, EchoKind, p, m);
  }

  lemma AllAreReady(c: Config, run: seq<System>, m: Value)
    requires IsRun(c, run) && Exchanged(c, run, EchoKind, m)
    ensures forall x :: x in CorrectMembers(c) ==> Signed(Last(run), x, ReadyKind, m)
  {
    RunInv(c, run, |run| - 1);
    EchosAreHandled(c, run, m);
    forall x | x in CorrectMembers(c)
      ensures Signed(Last(run), x, ReadyKind, m)
    {
      EchoedReady(c, Last(run), m, x);
    }
  }

  lemma ReadysHanded(c: Config, run: seq<System>, m: Value)
    requires IsRun(c, run) && Exchanged(c, run, ReadyKind, m)
    ensures AllHanded(c, run, |run| - 1, ReadyKind)
  {
    var last := |run| - 1;
    RunInv(c, run, last);
    forall p: Node, q: Node, m' | c.Correct(p) && c.Correct(q) && Signed(run[last], p, ReadyKind, m')
      ensures Handed(c, run, last, q, ReadyKind, p, m')
    {
      assert p in CorrectMembers(c);
      ReadysAgree(c, run[last], p, m, p, m');
      assert (q, p) in Pairs(c);
    }
  }

  lemma SendsHanded(c: Config, run: seq<System>, m: Value)
    requires IsRun(c, run) && Launched(c, Last(run), m) && PairsHanded(c, run, SendKind, m, SendPairs(c))
    ensures AllHanded(c, run, |run| - 1, SendKind)
  {
    var last := |run| - 1;
    forall p: Node, q: Node, m' | c.Correct(p) && c.Correct(q) && Signed(run[last], p, SendKind, m')
      ensures Handed(c, run, last, q, SendKind, p, m')
    {
      assert (q, c.sender.value) in SendPairs(c);
    }
  }

  lemma KindsHanded(c: Config, run: seq<System>, i: nat)
    requires i < |run| && AllHanded(c, run, i, SendKind) && AllHanded(c, run, i, EchoKind)
    requires AllHanded(c, run, i, ReadyKind)
    ensures EverythingHanded(c, run, i)
  {
    forall kind
      ensures AllHanded(c, run, i, kind)
    {
      match kind {
        case SendKind =>
        case EchoKind =>
        case ReadyKind =>
      }
    }
  }

  /** The SEND is out and handed to all, and all ECHOs and READYs have been exchanged. */
  lemma DeliverEverything(c: Config, m: Value) returns (run: seq<System>)
    requires c.Valid() && c.sender.Some? && c.Correct(c.sender.value)
    ensures IsRun(c, run) && Launched(c, Last(run), m) && PairsHanded(c, run, SendKind, m, SendPairs(c))
    ensures Exchanged(c, run, EchoKind, m) && Exchanged(c, run, ReadyKind, m)
  {
    var run1 := Launch(c, m);
    var run2 := HandAll(c, run1, SendKind, m, {}, SendPairs(c));
    assert {} + SendPairs(c) == SendPairs(c);
    AllEchoed(c, run2, m);
    var run3 := Exchange(c, run2, EchoKind, m);
    AllAreReady(c, run3, m);
    run := Exchange(c, run3, ReadyKind, m);
    ExchangeStays(c, run3, run, EchoKind, m);
    ExtendsTwice(c, run2, run3, run);
    PairsStay(c, run2, run, SendKind, m, SendPairs(c));
  }

  /**
    With a correct sender, however many of up to f others are faulty and whatever the value,
    there is a run in which every correct member delivers what was broadcast.
    */
  lemma EveryoneCanDeliver(c: Config, m: Value) returns (run: seq<System>)
    requires c.Valid() && c.sender.Some? && c.Correct(c.sender.value)
    ensures IsRun(c, run) && Launched(c, Last(run), m)
    ensures forall q: Node :: c.Correct(q) ==> Last(run).outputs[q] == Some(m)
  {
    run := DeliverEverything(c, m);
    var last := |run| - 1;
    SendsHanded(c, run, m);
    EchosAreHandled(c, run, m);
    ReadysHanded(c, run, m);
    KindsHanded(c, run, last);
    forall q: Node | c.Correct(q)
      ensures Last(run).outputs[q] == Some(m)
    {
      ValidityOfSteps(c, run, last, m, q);
    }
  }
}
