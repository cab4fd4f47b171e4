/**
  The guarantees that depend on what reaches whom, over the steps of a run: what a node has
  received is what the run has handed it, it is delivered or parked, and once everything has
  been handed to everyone nothing is parked.
  */
module CausalReach {
  import opened CausalNode
  import opened CausalSystem
  import opened CausalOrder

  /** By time i the run has handed broadcast k to node p. */
  ghost predicate Handed(n: nat, run: seq<System>, i: nat, p: Node, k: nat)
    requires i < |run|
  {
    exists a :: HandedAt(n, run, i, a, p, k)
  }

  ghost predicate HandedAt(n: nat, run: seq<System>, i: nat, a: nat, p: Node, k: nat)
    requires i < |run|
  {
    a < i && Shaped(n, run[a]) && NextStep(n, run[a], run[a + 1], Receive(p, k))
  }

  /** A broadcast keeps its place. */
  lemma {:induction false} SentGrows(n: nat, run: seq<System>, i: nat, j: nat)
    requires IsRun(n, run) && i <= j < |run|
    ensures run[i].sent <= run[j].sent
    decreases j
  {
    if i < j {
      SentGrows(n, run, i, j - 1);
      assert Next(n, run[j - 1], run[j - 1 + 1]);
    }
  }

  lemma {:induction false} ReceivedGrows(n: nat, run: seq<System>, i: nat, j: nat, p: Node)
    requires IsRun(n, run) && i <= j < |run| && p < n
    ensures run[i].nodes[p].delivered <= run[j].nodes[p].delivered
    decreases j
  {
    if i < j {
      ReceivedGrows(n, run, i, j - 1, p);
      assert Next(n, run[j - 1], run[j - 1 + 1]);
    }
  }

  /** What was handed to a node was received. */
  lemma HandedIsReceived(n: nat, run: seq<System>, i: nat, p: Node, k: nat)
    requires IsRun(n, run) && i < |run| && Handed(n, run, i, p, k)
    ensures p < n && k < |run[i].sent| && WellFormed(n, run[i].sent[k].d)
    ensures Id(run[i].sent[k].d) in run[i].nodes[p].delivered
  {
    var a: nat :| HandedAt(n, run, i, a, p, k);
    RunInv(n, run, a);
    HandingReceives(n, run[a], run[a + 1], p, k);
    ReceivedLater(n, run, a + 1, i, p, k);
  }

  lemma ReceivedLater(n: nat, run: seq<System>, a: nat, i: nat, p: Node, k: nat)
    requires IsRun(n, run) && a <= i < |run| && p < n && k < |run[a].sent| && WellFormed(n, run[a].sent[k].d)
    requires Id(run[a].sent[k].d) in run[a].nodes[p].delivered
    ensures k < |run[i].sent| && WellFormed(n, run[i].sent[k].d)
    ensures Id(run[i].sent[k].d) in run[i].nodes[p].delivered
  {
    SentGrows(n, run, a, i);
    ReceivedGrows(n, run, a, i, p);
    assert run[i].sent[k] == run[a].sent[k];
  }

  lemma HandingReceives(n: nat, s: System, s': System, p: Node, k: nat)
    requires Inv(n, s) && Shaped(n, s') && NextStep(n, s, s', Receive(p, k))
    ensures p < n && s'.sent == s.sent && k < |s.sent| && WellFormed(n, s.sent[k].d)
    ensures Id(s.sent[k].d) in s'.nodes[p].delivered
  {
    assert StampInv(n, s, k);
  }

  /** What a step adds to the identities a node has received. */
  lemma StepReceives(n: nat, s: System, s': System, step: Step, p: Node)
    requires Shaped(n, s) && Shaped(n, s') && NextStep(n, s, s', step) && p < n
    ensures forall id :: id in s'.nodes[p].delivered && id !in s.nodes[p].delivered ==>
              && step.Receive? && step.p == p
              && WellFormed(n, s.sent[step.k].d) && id == Id(s.sent[step.k].d)
  {
  }

  /** What a node has received was handed to it. */
  lemma {:induction false} ReceivedIsHanded(n: nat, run: seq<System>, i: nat, p: Node, k: nat)
    requires IsRun(n, run) && i < |run| && p < n && k < |run[i].sent| && WellFormed(n, run[i].sent[k].d)
    requires Id(run[i].sent[k].d) in run[i].nodes[p].delivered
    ensures Handed(n, run, i, p, k)
  {
    if i > 0 {
      var s, s', id := run[i - 1], run[i], Id(run[i].sent[k].d);
      assert Next(n, run[i - 1], run[i - 1 + 1]);
      var step :| NextStep(n, s, s', step);
      RunInv(n, run, i - 1);
      RunInv(n, run, i);
      StepReceives(n, s, s', step, p);
      SentGrows(n, run, i - 1, i);
      if id in s.nodes[p].delivered {
        OldId(n, s, s', p, k);
        ReceivedIsHanded(n, run, i - 1, p, k);
        var a: nat :| HandedAt(n, run, i - 1, a, p, k);
        assert HandedAt(n, run, i, a, p, k);
      } else {
        SameIdSameBroadcast(n, s', step.k, k);
        assert HandedAt(n, run, i, i - 1, p, k);
      }
    }
  }

  /** An identity received before is that of a broadcast made before. */
  lemma OldId(n: nat, s: System, s': System, p: Node, k: nat)
    requires Inv(n, s) && Inv(n, s') && s.sent <= s'.sent && p < n && k < |s'.sent| && WellFormed(n, s'.sent[k].d)
    requires Id(s'.sent[k].d) in s.nodes[p].delivered
    ensures k < |s.sent|
  {
    assert NodeInv(n, s, p);
    var d :| (d in s.logs[p] || d in s.nodes[p].pending) && WellFormed(n, d) && Id(d) == Id(s'.sent[k].d);
    assert Known(s, d);
    var m: nat :| m < |s.sent| && s.sent[m].d == d;
    assert s'.sent[m].d == d;
    SameIdSameBroadcast(n, s', m, k);
  }

  /** A node has received a broadcast exactly when the run has handed it over, */
  lemma ReceivedExactly(n: nat, run: seq<System>, i: nat, p: Node, k: nat)
    requires IsRun(n, run) && i < |run| && p < n && k < |run[i].sent|
    ensures WellFormed(n, run[i].sent[k].d)
    ensures Id(run[i].sent[k].d) in run[i].nodes[p].delivered <==> Handed(n, run, i, p, k)
  {
    RunInv(n, run, i);
    assert StampInv(n, run[i], k);
    if Handed(n, run, i, p, k) {
      HandedIsReceived(n, run, i, p, k);
    }
    if Id(run[i].sent[k].d) in run[i].nodes[p].delivered {
      ReceivedIsHanded(n, run, i, p, k);
    }
  }

  /** and from then on it has delivered the broadcast or parks it, but not both; otherwise neither. */
  lemma KeptExactly(n: nat, run: seq<System>, i: nat, p: Node, k: nat)
    requires IsRun(n, run) && i < |run| && p < n && k < |run[i].sent|
    ensures var d := run[i].sent[k].d;
            && (Handed(n, run, i, p, k) <==> d in run[i].logs[p] || d in run[i].nodes[p].pending)
            && !(d in run[i].logs[p] && d in run[i].nodes[p].pending)
  {
    var s, d := run[i], run[i].sent[k].d;
    RunInv(n, run, i);
    ReceivedExactly(n, run, i, p, k);
    assert NodeInv(n, s, p);
    if Id(d) in s.nodes[p].delivered {
      ReceivedIsKept(n, s, p, k);
    }
  }

  /** A node relays a broadcast the first time it is handed it, and only then. */
  lemma RelayedOnce(n: nat, run: seq<System>, i: nat, p: Node, k: nat)
    requires IsRun(n, run) && i + 1 < |run| && NextStep(n, run[i], run[i + 1], Receive(p, k))
    ensures OnReceive(run[i].nodes[p], run[i].sent[k].d).relay ==
            if Handed(n, run, i, p, k) then [] else [run[i].sent[k].d]
  {
    ReceivedExactly(n, run, i, p, k);
  }

  /** The run has handed every broadcast to every node. */
  ghost predicate HandedEverywhere(n: nat, run: seq<System>, i: nat)
    requires i < |run|
  {
    forall p: Node, k: nat :: p < n && k < |run[i].sent| ==> Handed(n, run, i, p, k)
  }

  lemma EverythingReceived(n: nat, run: seq<System>, i: nat)
    requires IsRun(n, run) && i < |run| && HandedEverywhere(n, run, i)
    ensures ReceivedEverywhere(n, run[i])
  {
    var s := run[i];
    forall q: Node, k: nat | q < n && k < |s.sent|
      ensures ReceivedBy(s, q, k)
    {
      assert Handed(n, run, i, q, k);
      HandedIsReceived(n, run, i, q, k);
    }
  }

  /**
    No eternal parking: once every broadcast has been handed to every node, nothing is
    parked, every node has delivered every broadcast, and all vectors are equal.
    */
  lemma NothingStaysParked(n: nat, run: seq<System>, i: nat, p: Node)
    requires IsRun(n, run) && i < |run| && p < n && HandedEverywhere(n, run, i)
    ensures run[i].nodes[p].pending == []
    ensures forall k :: 0 <= k < |run[i].sent| ==> run[i].sent[k].d in run[i].logs[p]
    ensures forall q: Node :: q < n ==> run[i].nodes[p].v[q] == run[i].nodes[q].lsn
    ensures forall r: Node :: r < n ==> run[i].nodes[r].v == run[i].nodes[p].v
  {
    EverythingReceived(n, run, i);
    NoEternalParking(n, run, i, p);
    forall k | 0 <= k < |run[i].sent|
      ensures run[i].sent[k].d in run[i].logs[p]
    {
      assert Handed(n, run, i, p, k);
      KeptExactly(n, run, i, p, k);
    }
  }

  // ------------------------------------------------------------- order of parking

  ghost predicate Precedes(list: seq<Data>, x: Data, y: Data) {
    exists a: nat, b: nat :: a < b < |list| && list[a] == x && list[b] == y
  }

  lemma RemoveKeepsOrder(list: seq<Data>, i: nat, x: Data, y: Data)
    requires i < |list| && Precedes(Remove(list, i), x, y)
    ensures Precedes(list, x, y)
  {
    var rest := Remove(list, i);
    var a: nat, b: nat :| a < b < |rest| && rest[a] == x && rest[b] == y;
    var a', b' := if a < i then a else a + 1, if b < i then b else b + 1;
    assert list[a'] == x && list[b'] == y;
  }

  lemma {:induction false} DrainKeepsOrder(v: seq<nat>, pending: seq<Data>, x: Data, y: Data)
    requires AllFormed(|v|, pending) && Precedes(Drain(v, pending).pending, x, y)
    ensures Precedes(pending, x, y)
    decreases |pending|
  {
    var i := FirstReady(pending, v);
    if i < |pending| {
      RemoveFormed(|v|, pending, i);
      DrainKeepsOrder(Counted(v, pending[i]), Remove(pending, i), x, y);
      RemoveKeepsOrder(pending, i, x, y);
    }
  }

  /** By time i there was a time when p had received x and not yet y. */
  ghost predicate Earlier(run: seq<System>, i: nat, p: Node, x: (Node, nat), y: (Node, nat)) {
    exists t: nat :: t <= i && t < |run| && p < |run[t].nodes|
                     && x in run[t].nodes[p].delivered && y !in run[t].nodes[p].delivered
  }

  ghost predicate ParkedInTurn(n: nat, run: seq<System>, i: nat, p: Node)
    requires i < |run| && p < |run[i].nodes|
  {
    forall x, y :: Precedes(run[i].nodes[p].pending, x, y) && WellFormed(n, x) && WellFormed(n, y) ==>
      Earlier(run, i, p, Id(x), Id(y))
  }

  lemma StepParks(n: nat, s: System, s': System, step: Step, p: Node, x: Data, y: Data)
    requires Inv(n, s) && Shaped(n, s') && NextStep(n, s, s', step) && p < n
    requires Precedes(s'.nodes[p].pending, x, y) && WellFormed(n, x) && WellFormed(n, y)
    ensures Precedes(s.nodes[p].pending, x, y)
            || (Id(x) in s.nodes[p].delivered && Id(y) !in s.nodes[p].delivered)
  {
    var node := s.nodes[p];
    if step.Receive? && step.p == p && node.pending != s'.nodes[p].pending {
      var d := s.sent[step.k].d;
      assert StampInv(n, s, step.k) && NodeInv(n, s, p);
      DrainKeepsOrder(node.v, node.pending + [d], x, y);
      AppendedOrder(node.pending, d, x, y);
    }
  }

  lemma AppendedOrder(list: seq<Data>, d: Data, x: Data, y: Data)
    requires Precedes(list + [d], x, y)
    ensures Precedes(list, x, y) || (x in list && y == d)
  {
    var more := list + [d];
    var a: nat, b: nat :| a < b < |more| && more[a] == x && more[b] == y;
    assert b < |list| ==> list[a] == x && list[b] == y;
    assert x == list[a];
  }

  lemma NextParks(n: nat, run: seq<System>, i: nat, p: Node)
    requires IsRun(n, run) && i + 1 < |run| && p < n && ParkedInTurn(n, run, i, p)
    ensures ParkedInTurn(n, run, i + 1, p)
  {
    RunInv(n, run, i);
    assert Next(n, run[i], run[i + 1]);
    var step :| NextStep(n, run[i], run[i + 1], step);
    forall x, y | Precedes(run[i + 1].nodes[p].pending, x, y) && WellFormed(n, x) && WellFormed(n, y)
      ensures Earlier(run, i + 1, p, Id(x), Id(y))
    {
      StepParks(n, run[i], run[i + 1], step, p, x, y);
    }
  }

  lemma {:induction false} RunParks(n: nat, run: seq<System>, i: nat, p: Node)
    requires IsRun(n, run) && i < |run| && p < n
    ensures ParkedInTurn(n, run, i, p)
  {
    if i > 0 {
      RunParks(n, run, i - 1, p);
      NextParks(n, run, i - 1, p);
    }
  }

  /** Parked messages stand in the order in which the run first handed them over. */
  lemma ParkedInOrder(n: nat, run: seq<System>, i: nat, p: Node, a: nat, b: nat) returns (j: nat, k: nat, t: nat)
    requires IsRun(n, run) && i < |run| && p < n && a < b < |run[i].nodes[p].pending|
    ensures j < |run[i].sent| && run[i].sent[j].d == run[i].nodes[p].pending[a]
    ensures k < |run[i].sent| && run[i].sent[k].d == run[i].nodes[p].pending[b]
    ensures t <= i && Handed(n, run, t, p, j) && !Handed(n, run, t, p, k)
  {
    var s := run[i];
    var x, y := s.nodes[p].pending[a], s.nodes[p].pending[b];
    RunInv(n, run, i);
    assert NodeInv(n, s, p) && x in s.nodes[p].pending && y in s.nodes[p].pending;
    assert Known(s, x) && Known(s, y);
    j :| j < |s.sent| && s.sent[j].d == x;
    k :| k < |s.sent| && s.sent[k].d == y;
    RunParks(n, run, i, p);
    assert Precedes(s.nodes[p].pending, x, y);
    t :| t <= i && p < |run[t].nodes| && Id(x) in run[t].nodes[p].delivered && Id(y) !in run[t].nodes[p].delivered;
    HandedThen(n, run, t, i, p, j);
    if Handed(n, run, t, p, k) {
      HandedIsReceived(n, run, t, p, k);
      SentGrows(n, run, t, i);
    }
  }

  lemma HandedThen(n: nat, run: seq<System>, t: nat, i: nat, p: Node, j: nat)
    requires IsRun(n, run) && t <= i < |run| && p < n && j < |run[i].sent| && WellFormed(n, run[i].sent[j].d)
    requires Id(run[i].sent[j].d) in run[t].nodes[p].delivered
    ensures Handed(n, run, t, p, j)
  {
    RunInv(n, run, t);
    RunInv(n, run, i);
    SentGrows(n, run, t, i);
    OldId(n, run[t], run[i], p, j);
    ReceivedIsHanded(n, run, t, p, j);
  }

  // ----------------------------------------------------------------- catching up

  ghost function Last(run: seq<System>): System
    requires |run| > 0
  {
    run[|run| - 1]
  }

  /** The run goes on, without new broadcasts. */
  ghost predicate Extends(n: nat, run: seq<System>, more: seq<System>) {
    IsRun(n, more) && 0 < |run| <= |more| && more[..|run|] == run && Last(more).sent == Last(run).sent
  }

  lemma ExtendsSelf(n: nat, run: seq<System>, done: set<(Node, nat)>)
    requires IsRun(n, run) && AllHanded(n, run, done)
    ensures Extends(n, run, run) && AllHanded(n, run, done + {})
  {
    assert done + {} == done;
  }

  lemma ExtendsTwice(n: nat, a: seq<System>, b: seq<System>, c: seq<System>)
    requires Extends(n, a, b) && Extends(n, b, c)
    ensures Extends(n, a, c)
  {
    assert c[..|a|] == c[..|b|][..|a|];
  }

  /** At its end the run has handed over every pair in the set. */
  ghost predicate AllHanded(n: nat, run: seq<System>, done: set<(Node, nat)>)
    requires |run| > 0
  {
    forall x :: x in done ==> Handed(n, run, |run| - 1, x.0, x.1)
  }

  ghost predicate AllThere(n: nat, s: System, todo: set<(Node, nat)>) {
    forall x :: x in todo ==> x.0 < n && x.1 < |s.sent|
  }

  lemma HandOne(n: nat, run: seq<System>, p: Node, k: nat) returns (more: seq<System>)
    requires IsRun(n, run) && p < n && k < |Last(run).sent|
    ensures Extends(n, run, more) && Handed(n, more, |more| - 1, p, k)
  {
    var s := Last(run);
    var e := OnReceive(s.nodes[p], s.sent[k].d);
    var s' := s.(nodes := s.nodes[p := e.node], logs := s.logs[p := s.logs[p] + e.out]);
    assert NextStep(n, s, s', Receive(p, k));
    StepShapes(n, s, s', Receive(p, k));
    more := run + [s'];
    forall j | 0 <= j < |more| - 1
      ensures Next(n, more[j], more[j + 1])
    {
      if j < |run| - 1 {
        assert Next(n, run[j], run[j + 1]);
      }
    }
    assert HandedAt(n, more, |more| - 1, |run| - 1, p, k);
  }

  lemma StaysHanded(n: nat, run: seq<System>, more: seq<System>, p: Node, k: nat)
    requires Extends(n, run, more) && Handed(n, run, |run| - 1, p, k)
    ensures Handed(n, more, |more| - 1, p, k)
  {
    var a: nat :| HandedAt(n, run, |run| - 1, a, p, k);
    assert more[a] == run[a] && more[a + 1] == run[a + 1];
    assert HandedAt(n, more, |more| - 1, a, p, k);
  }

  lemma HandMore(n: nat, run: seq<System>, done: set<(Node, nat)>, x: (Node, nat)) returns (more: seq<System>)
    requires IsRun(n, run) && AllHanded(n, run, done) && x.0 < n && x.1 < |Last(run).sent|
    ensures Extends(n, run, more) && AllHanded(n, more, done + {x})
  {
    more := HandOne(n, run, x.0, x.1);
    forall y | y in done
      ensures Handed(n, more, |more| - 1, y.0, y.1)
    {
      StaysHanded(n, run, more, y.0, y.1);
    }
  }

  lemma Regroup(done: set<(Node, nat)>, todo: set<(Node, nat)>, x: (Node, nat))
    requires x in todo
    ensures done + {x} + (todo - {x}) == done + todo
  {
  }

  lemma HandAll(n: nat, run: seq<System>, done: set<(Node, nat)>, todo: set<(Node, nat)>) returns (more: seq<System>)
    requires IsRun(n, run) && AllHanded(n, run, done) && AllThere(n, Last(run), todo)
    ensures Extends(n, run, more) && AllHanded(n, more, done + todo)
    decreases |todo|
  {
    if todo == {} {
      more := run;
      ExtendsSelf(n, run, done);
    } else {
      var x :| x in todo;
      var next := HandMore(n, run, done, x);
      more := HandAll(n, next, done + {x}, todo - {x});
      ExtendsTwice(n, run, next, more);
      Regroup(done, todo, x);
    }
  }

  /** The node has delivered every broadcast and parks nothing. */
  ghost predicate CaughtUp(s: System, p: Node)
    requires p < |s.nodes| && p < |s.logs|
  {
    s.nodes[p].pending == [] && forall k :: 0 <= k < |s.sent| ==> s.sent[k].d in s.logs[p]
  }

  lemma AllPairsHanded(n: nat, run: seq<System>, i: nat, done: set<(Node, nat)>)
    requires IsRun(n, run) && i == |run| - 1 && AllHanded(n, run, done)
    requires forall p: Node, k: nat :: p < n && k < |run[i].sent| ==> (p, k) in done
    ensures HandedEverywhere(n, run, i)
  {
    forall p: Node, k: nat | p < n && k < |run[i].sent|
      ensures Handed(n, run, i, p, k)
    {
      assert (p, k) in done;
    }
  }

  /** Every run can go on to one in which every node has delivered every broadcast made so far. */
  lemma EveryoneCanCatchUp(n: nat, run: seq<System>) returns (more: seq<System>)
    requires IsRun(n, run)
    ensures Extends(n, run, more)
    ensures forall p: Node :: p < n ==> CaughtUp(Last(more), p)
  {
    var count := |Last(run).sent|;
    var todo := set p: Node, k: nat | p < n && k < count :: (p, k);
    more := HandAll(n, run, {}, todo);
    assert {} + todo == todo;
    var last := |more| - 1;
    AllPairsHanded(n, more, last, todo);
    forall p: Node | p < n
      ensures CaughtUp(Last(more), p)
    {
      NothingStaysParked(n, more, last, p);
    }
  }
}
