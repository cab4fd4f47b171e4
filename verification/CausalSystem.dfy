/**
  The causal broadcast as a state machine: every message broadcast so far, what each
  node has delivered, and the invariant all steps keep. A message may reach a node any
  number of times, in any order, directly or relayed, or never.
  */
module CausalSystem {
  import opened CausalNode

  // A broadcast, and how many deliveries its sender had made before it.
  datatype Sent = Sent(d: Data, at: nat)

  datatype System = System(
    nodes: seq<NodeState>,
    sent: seq<Sent>,               // every broadcast, in the order they were made
    logs: seq<seq<Data>>)          // what each node has delivered, in order

  datatype Step = Bcast(p: Node, m: string) | Receive(p: Node, k: nat)

  ghost predicate Shaped(n: nat, s: System) {
    && |s.nodes| == n && |s.logs| == n
    && forall p :: 0 <= p < n ==> |s.nodes[p].v| == n && AllFormed(n, s.nodes[p].pending)
  }

  ghost predicate Init(n: nat, s: System) {
    && Shaped(n, s) && s.sent == []
    && forall p :: 0 <= p < n ==> s.nodes[p] == Start(n) && s.logs[p] == []
  }

  ghost predicate NextStep(n: nat, s: System, s': System, step: Step)
    requires Shaped(n, s)
  {
    && step.p < n
    && match step
       case Bcast(p, m) =>
         var (node, d) := OnBcast(p, s.nodes[p], m);
         s' == s.(nodes := s.nodes[p := node], sent := s.sent + [Sent(d, |s.logs[p]|)])
       case Receive(p, k) =>
         && k < |s.sent|
         && var e := OnReceive(s.nodes[p], s.sent[k].d);
            s' == s.(nodes := s.nodes[p := e.node], logs := s.logs[p := s.logs[p] + e.out])
  }

  ghost predicate Next(n: nat, s: System, s': System)
    requires Shaped(n, s)
  {
    exists step :: NextStep(n, s, s', step)
  }

  /** Every step leads to a shaped state, so demanding it of a run excludes nothing. */
  lemma StepShapes(n: nat, s: System, s': System, step: Step)
    requires Shaped(n, s) && NextStep(n, s, s', step)
    ensures Shaped(n, s')
  {
    if step.Receive? {
      var d := s.sent[step.k].d;
      if WellFormed(n, d) {
        DrainForms(s.nodes[step.p].v, s.nodes[step.p].pending + [d]);
      }
    }
  }

  ghost predicate IsRun(n: nat, run: seq<System>) {
    && |run| > 0
    && Init(n, run[0])
    && (forall k :: 0 <= k < |run| ==> Shaped(n, run[k]))
    && (forall k :: 0 <= k < |run| - 1 ==> Next(n, run[k], run[k + 1]))
  }

  // -------------------------------------------------------------------- counting

  function CountIn(log: seq<Data>, q: Node): nat {
    if log == [] then 0 else CountIn(log[..|log| - 1], q) + if log[|log| - 1].from == q then 1 else 0
  }

  function CountFrom(sent: seq<Sent>, q: Node): nat {
    if sent == [] then 0 else CountFrom(sent[..|sent| - 1], q) + if sent[|sent| - 1].d.from == q then 1 else 0
  }

  lemma {:induction false} CountInGrows(log: seq<Data>, a: nat, b: nat, q: Node)
    requires a <= b <= |log|
    ensures CountIn(log[..a], q) <= CountIn(log[..b], q)
    ensures a < b && log[a].from == q ==> CountIn(log[..a], q) < CountIn(log[..b], q)
    decreases b
  {
    if a < b {
      assert log[..b][..b - 1] == log[..b - 1];
      CountInGrows(log, a, b - 1, q);
    }
  }

  lemma {:induction false} CountFromGrows(sent: seq<Sent>, a: nat, b: nat, q: Node)
    requires a <= b <= |sent|
    ensures CountFrom(sent[..a], q) <= CountFrom(sent[..b], q)
    ensures a < b && sent[a].d.from == q ==> CountFrom(sent[..a], q) < CountFrom(sent[..b], q)
    decreases b
  {
    if a < b {
      assert sent[..b][..b - 1] == sent[..b - 1];
      CountFromGrows(sent, a, b - 1, q);
    }
  }

  // ------------------------------------------------------------------- invariant

  /** Each delivery came after everything its stamp names, and in sequence from its origin. */
  ghost predicate LogInv(n: nat, log: seq<Data>) {
    forall b :: 0 <= b < |log| ==>
      && WellFormed(n, log[b])
      && log[b].w[log[b].from] == CountIn(log[..b], log[b].from)
      && forall q :: 0 <= q < n ==> log[b].w[q] <= CountIn(log[..b], q)
  }

  /** A stamp counts what its sender had delivered from each other node, and what it had itself broadcast. */
  ghost predicate StampInv(n: nat, s: System, k: nat)
    requires Shaped(n, s) && k < |s.sent|
  {
    var d, at := s.sent[k].d, s.sent[k].at;
    && WellFormed(n, d)
    && at <= |s.logs[d.from]|
    && d.w[d.from] == CountFrom(s.sent[..k], d.from)
    && CountIn(s.logs[d.from][..at], d.from) <= d.w[d.from]
    && (forall q :: 0 <= q < n && q != d.from ==> d.w[q] == CountIn(s.logs[d.from][..at], q))
    && (forall q :: 0 <= q < n ==> d.w[q] <= CountFrom(s.sent[..k], q))
  }

  ghost predicate OrderInv(s: System) {
    forall j, k :: 0 <= j < k < |s.sent| && s.sent[j].d.from == s.sent[k].d.from ==> s.sent[j].at <= s.sent[k].at
  }

  /** The vector counts the log; what is parked is not delivered; nothing is there twice. */
  ghost predicate Core(n: nat, v: seq<nat>, pending: seq<Data>, log: seq<Data>) {
    && |v| == n && AllFormed(n, pending) && LogInv(n, log)
    && (forall q :: 0 <= q < n ==> v[q] == CountIn(log, q))
    && (forall i, j :: 0 <= i < j < |pending| ==> Id(pending[i]) != Id(pending[j]))
    && (forall i, a :: 0 <= i < |pending| && 0 <= a < |log| ==> Id(pending[i]) != Id(log[a]))
  }

  ghost predicate Known(s: System, d: Data) {
    exists k :: 0 <= k < |s.sent| && s.sent[k].d == d
  }

  ghost predicate NodeInv(n: nat, s: System, p: Node)
    requires Shaped(n, s) && p < n
  {
    var node, log := s.nodes[p], s.logs[p];
    && node.lsn == CountFrom(s.sent, p)
    && Core(n, node.v, node.pending, log)
    && (forall d :: d in log || d in node.pending ==> Known(s, d) && WellFormed(n, d) && Id(d) in node.delivered)
    && (forall id :: id in node.delivered ==>
         exists d :: (d in log || d in node.pending) && WellFormed(n, d) && Id(d) == id)
    && (forall i :: 0 <= i < |node.pending| ==> !Ready(node.pending[i].w, node.v))
  }

  ghost predicate Inv(n: nat, s: System) {
    && Shaped(n, s)
    && (forall k :: 0 <= k < |s.sent| ==> StampInv(n, s, k))
    && OrderInv(s)
    && (forall p: Node :: p < n ==> NodeInv(n, s, p))
  }

  // ------------------------------------------------------- what the counts imply

  /** A log that has delivered more than `seqno` messages of q has delivered number `seqno`. */
  lemma {:induction false} Delivered(n: nat, log: seq<Data>, b: nat, q: Node, seqno: nat) returns (a: nat)
    requires LogInv(n, log) && b <= |log| && q < n && seqno < CountIn(log[..b], q)
    ensures a < b && log[a].from == q && log[a].w[q] == seqno
  {
    assert log[..b][..b - 1] == log[..b - 1];
    if log[b - 1].from == q && seqno == CountIn(log[..b - 1], q) {
      a := b - 1;
    } else {
      a := Delivered(n, log, b - 1, q, seqno);
    }
  }

  /** ... and a delivered message's number is below the count. */
  lemma Numbered(n: nat, log: seq<Data>, a: nat, b: nat)
    requires LogInv(n, log) && a < b <= |log|
    ensures log[a].from < n && log[a].w[log[a].from] < CountIn(log[..b], log[a].from)
  {
    CountInGrows(log, a, b, log[a].from);
  }

  /** Of the first k broadcasts, those of q are numbered from 0 on. */
  lemma {:induction false} Broadcast(n: nat, s: System, k: nat, q: Node, seqno: nat) returns (j: nat)
    requires Shaped(n, s) && forall i :: 0 <= i < |s.sent| ==> StampInv(n, s, i)
    requires k <= |s.sent| && q < n && seqno < CountFrom(s.sent[..k], q)
    ensures j < k && WellFormed(n, s.sent[j].d) && s.sent[j].d.from == q && s.sent[j].d.w[q] == seqno
  {
    assert StampInv(n, s, k - 1);
    assert s.sent[..k][..k - 1] == s.sent[..k - 1];
    if s.sent[k - 1].d.from == q && seqno == CountFrom(s.sent[..k - 1], q) {
      j := k - 1;
    } else {
      j := Broadcast(n, s, k - 1, q, seqno);
    }
  }

  /** A broadcast's identity is its own. */
  lemma SameIdSameBroadcast(n: nat, s: System, j: nat, k: nat)
    requires Shaped(n, s) && forall i :: 0 <= i < |s.sent| ==> StampInv(n, s, i)
    requires j < |s.sent| && k < |s.sent| && WellFormed(n, s.sent[j].d) && WellFormed(n, s.sent[k].d)
    requires Id(s.sent[j].d) == Id(s.sent[k].d)
    ensures j == k
  {
    assert StampInv(n, s, j) && StampInv(n, s, k);
    var q := s.sent[j].d.from;
    if j < k {
      CountFromGrows(s.sent, j, k, q);
    } else if k < j {
      CountFromGrows(s.sent, k, j, q);
    }
  }

  lemma KnownBounded(n: nat, s: System, d: Data)
    requires Shaped(n, s) && (forall i :: 0 <= i < |s.sent| ==> StampInv(n, s, i))
    requires Known(s, d) && WellFormed(n, d)
    ensures d.w[d.from] < CountFrom(s.sent, d.from)
  {
    var k :| 0 <= k < |s.sent| && s.sent[k].d == d;
    assert StampInv(n, s, k);
    assert s.sent[..|s.sent|] == s.sent;
    CountFromGrows(s.sent, k, |s.sent|, d.from);
  }

  /** Nobody has delivered more of q than q has broadcast. */
  lemma DeliveredBounded(n: nat, s: System, p: Node, q: Node)
    requires Inv(n, s) && p < n && q < n
    ensures CountIn(s.logs[p], q) <= CountFrom(s.sent, q)
  {
    var log := s.logs[p];
    assert log[..|log|] == log;
    assert NodeInv(n, s, p);
    if CountIn(log, q) > 0 {
      var a := Delivered(n, log, |log|, q, CountIn(log, q) - 1);
      assert log[a] in log;
      KnownBounded(n, s, log[a]);
    }
  }

  // ------------------------------------------------------------------- every step

  lemma LogExtends(n: nat, log: seq<Data>, d: Data)
    requires LogInv(n, log) && WellFormed(n, d)
    requires d.w[d.from] == CountIn(log, d.from) && forall q :: 0 <= q < n ==> d.w[q] <= CountIn(log, q)
    ensures LogInv(n, log + [d])
  {
    forall b | 0 <= b < |log + [d]|
      ensures (log + [d])[..b] == if b < |log| then log[..b] else log
    {
    }
  }

  /** Delivering a ready message keeps the core; its number is exactly the next one. */
  lemma DeliverKeepsCore(n: nat, v: seq<nat>, pending: seq<Data>, log: seq<Data>, i: nat)
    requires Core(n, v, pending, log) && i < |pending| && Ready(pending[i].w, v)
    ensures Core(n, Counted(v, pending[i]), Remove(pending, i), log + [pending[i]])
  {
    var d := pending[i];
    assert log[..|log|] == log;
    if d.w[d.from] < CountIn(log, d.from) {
      var a := Delivered(n, log, |log|, d.from, d.w[d.from]);
      assert false;
    }
    LogExtends(n, log, d);
    assert (log + [d])[..|log|] == log;
    RemoveFormed(n, pending, i);
    RemovedIds(pending, log, i);
  }

  lemma RemovedIds(pending: seq<Data>, log: seq<Data>, i: nat)
    requires i < |pending| && AllFormed(|pending[i].w|, pending)
    requires forall b :: 0 <= b < |log| ==> log[b].from < |log[b].w|
    requires forall a, b :: 0 <= a < b < |pending| ==> Id(pending[a]) != Id(pending[b])
    requires forall a, b :: 0 <= a < |pending| && 0 <= b < |log| ==> Id(pending[a]) != Id(log[b])
    ensures var rest, more := Remove(pending, i), log + [pending[i]];
            && AllFormed(|pending[i].w|, rest)
            && (forall a, b :: 0 <= a < b < |rest| ==> Id(rest[a]) != Id(rest[b]))
            && (forall a, b :: 0 <= a < |rest| && 0 <= b < |more| ==> Id(rest[a]) != Id(more[b]))
  {
    var rest := Remove(pending, i);
    RemoveFormed(|pending[i].w|, pending, i);
    assert forall j :: 0 <= j < |rest| ==> rest[j] == if j < i then pending[j] else pending[j + 1];
  }

  /** The drain loop moves messages from the parking list to the log. */
  lemma {:induction false} DrainKeepsCore(n: nat, v: seq<nat>, pending: seq<Data>, log: seq<Data>)
    requires Core(n, v, pending, log)
    ensures var r := Drain(v, pending); Core(n, r.v, r.pending, log + r.out)
    decreases |pending|
  {
    var i := FirstReady(pending, v);
    if i == |pending| {
      assert log + [] == log;
    } else {
      var d := pending[i];
      DeliverKeepsCore(n, v, pending, log, i);
      DrainKeepsCore(n, Counted(v, d), Remove(pending, i), log + [d]);
      var rest := Drain(Counted(v, d), Remove(pending, i));
      Reassociate(n, rest.v, rest.pending, log, d, rest.out);
    }
  }

  lemma Reassociate(n: nat, v: seq<nat>, pending: seq<Data>, log: seq<Data>, d: Data, out: seq<Data>)
    requires Core(n, v, pending, log + [d] + out)
    ensures Core(n, v, pending, log + ([d] + out))
  {
    assert log + [d] + out == log + ([d] + out);
  }

  /** The drain loop loses no message and makes none up. */
  lemma {:induction false} DrainKeepsElements(v: seq<nat>, pending: seq<Data>)
    requires AllFormed(|v|, pending)
    ensures forall d :: d in pending <==> d in Drain(v, pending).out || d in Drain(v, pending).pending
    decreases |pending|
  {
    var i := FirstReady(pending, v);
    if i < |pending| {
      RemoveFormed(|v|, pending, i);
      DrainKeepsElements(Counted(v, pending[i]), Remove(pending, i));
      RemovedElements(pending, i);
    }
  }

  lemma RemovedElements(pending: seq<Data>, i: nat)
    requires i < |pending|
    ensures forall d :: d in pending <==> d == pending[i] || d in Remove(pending, i)
  {
    assert pending == pending[..i] + [pending[i]] + pending[i + 1..];
  }

  lemma BcastKeeps(n: nat, s: System, p: Node, m: string)
    requires Inv(n, s) && p < n
    ensures forall s' :: NextStep(n, s, s', Bcast(p, m)) ==> Inv(n, s')
  {
    var (node, d) := OnBcast(p, s.nodes[p], m);
    var s' := s.(nodes := s.nodes[p := node], sent := s.sent + [Sent(d, |s.logs[p]|)]);
    BcastStamp(n, s, s', p, d);
    BcastStamps(n, s, s', p, d);
    forall q: Node | q < n
      ensures NodeInv(n, s', q)
    {
      BcastNode(n, s, s', p, d, q);
    }
    forall j, k | 0 <= j < k < |s'.sent| && s'.sent[j].d.from == s'.sent[k].d.from
      ensures s'.sent[j].at <= s'.sent[k].at
    {
      if k == |s.sent| {
        assert StampInv(n, s, j);
      }
    }
  }

  ghost predicate Broadcasts(n: nat, s: System, s': System, p: Node, d: Data)
    requires Shaped(n, s)
  {
    && p < n && d.from == p && d.w == s.nodes[p].v[p := s.nodes[p].lsn]
    && s' == s.(nodes := s.nodes[p := s.nodes[p].(lsn := s.nodes[p].lsn + 1)], sent := s.sent + [Sent(d, |s.logs[p]|)])
  }

  lemma BcastStamp(n: nat, s: System, s': System, p: Node, d: Data)
    requires Inv(n, s) && Broadcasts(n, s, s', p, d)
    ensures Shaped(n, s') && StampInv(n, s', |s.sent|)
  {
    assert NodeInv(n, s, p);
    assert s'.sent[..|s.sent|] == s.sent;
    assert s.logs[p][..|s.logs[p]|] == s.logs[p];
    forall q | 0 <= q < n
      ensures CountIn(s.logs[p], q) <= CountFrom(s.sent, q)
    {
      DeliveredBounded(n, s, p, q);
    }
  }

  lemma BcastStamps(n: nat, s: System, s': System, p: Node, d: Data)
    requires Inv(n, s) && Broadcasts(n, s, s', p, d) && Shaped(n, s')
    ensures forall k :: 0 <= k < |s.sent| ==> StampInv(n, s', k)
  {
    forall k | 0 <= k < |s.sent|
      ensures StampInv(n, s', k)
    {
      assert StampInv(n, s, k);
      assert s'.sent[..k] == s.sent[..k];
    }
  }

  lemma BcastNode(n: nat, s: System, s': System, p: Node, d: Data, q: Node)
    requires Inv(n, s) && Broadcasts(n, s, s', p, d) && Shaped(n, s') && q < n
    ensures NodeInv(n, s', q)
  {
    assert NodeInv(n, s, q);
    assert s'.sent[..|s.sent|] == s.sent;
    forall x | Known(s, x)
      ensures Known(s', x)
    {
      var k :| 0 <= k < |s.sent| && s.sent[k].d == x;
      assert s'.sent[k].d == x;
    }
  }

  // A message received for the first time joins the parking list before the drain.
  lemma ParkKeepsCore(n: nat, s: System, p: Node, d: Data)
    requires Inv(n, s) && p < n && WellFormed(n, d) && Id(d) !in s.nodes[p].delivered
    ensures Core(n, s.nodes[p].v, s.nodes[p].pending + [d], s.logs[p])
  {
    assert NodeInv(n, s, p);
    var pending, log := s.nodes[p].pending, s.logs[p];
    forall i | 0 <= i < |pending|
      ensures Id(pending[i]) != Id(d)
    {
      assert pending[i] in pending;
    }
    forall a | 0 <= a < |log|
      ensures Id(log[a]) != Id(d)
    {
      assert log[a] in log;
    }
  }

  lemma ReceiveNode(n: nat, s: System, s': System, p: Node, k: nat)
    requires Inv(n, s) && p < n && k < |s.sent| && NextStep(n, s, s', Receive(p, k)) && Shaped(n, s')
    ensures NodeInv(n, s', p)
  {
    var d, node, log := s.sent[k].d, s.nodes[p], s.logs[p];
    assert NodeInv(n, s, p) && StampInv(n, s, k);
    if Id(d) in node.delivered {
      assert log + [] == log;
    } else {
      ParkKeepsCore(n, s, p, d);
      DrainKeepsCore(n, node.v, node.pending + [d], log);
      DrainKeepsElements(node.v, node.pending + [d]);
      DrainEnds(node.v, node.pending + [d]);
      var r := Drain(node.v, node.pending + [d]);
      forall x
        ensures x in s'.logs[p] || x in s'.nodes[p].pending <==> x in log || x in node.pending || x == d
      {
      }
      ReceivedIds(n, s, s', p, k);
    }
  }

  lemma ReceivedIds(n: nat, s: System, s': System, p: Node, k: nat)
    requires Shaped(n, s) && Shaped(n, s') && p < n && NodeInv(n, s, p) && k < |s.sent| && WellFormed(n, s.sent[k].d)
    requires s'.sent == s.sent && s'.nodes[p].delivered == s.nodes[p].delivered + {Id(s.sent[k].d)}
    requires forall x :: x in s'.logs[p] || x in s'.nodes[p].pending <==>
               x in s.logs[p] || x in s.nodes[p].pending || x == s.sent[k].d
    ensures forall x :: x in s'.logs[p] || x in s'.nodes[p].pending ==>
              Known(s', x) && WellFormed(n, x) && Id(x) in s'.nodes[p].delivered
    ensures forall id :: id in s'.nodes[p].delivered ==>
              exists x :: (x in s'.logs[p] || x in s'.nodes[p].pending) && WellFormed(n, x) && Id(x) == id
  {
    var d := s.sent[k].d;
    forall x | x in s'.logs[p] || x in s'.nodes[p].pending
      ensures Known(s', x)
    {
      if x != d {
        assert Known(s, x);
        var j :| 0 <= j < |s.sent| && s.sent[j].d == x;
        assert s'.sent[j].d == x;
      } else {
        assert s'.sent[k].d == x;
      }
    }
    forall id | id in s'.nodes[p].delivered
      ensures exists x :: (x in s'.logs[p] || x in s'.nodes[p].pending) && WellFormed(n, x) && Id(x) == id
    {
      if id == Id(d) {
        assert d in s'.logs[p] || d in s'.nodes[p].pending;
      } else {
        var x :| (x in s.logs[p] || x in s.nodes[p].pending) && WellFormed(n, x) && Id(x) == id;
        assert x in s'.logs[p] || x in s'.nodes[p].pending;
      }
    }
  }

  lemma ReceiveStamps(n: nat, s: System, s': System, p: Node)
    requires Inv(n, s) && Shaped(n, s') && p < n && s'.sent == s.sent
    requires s.logs[p] <= s'.logs[p] && s'.logs == s.logs[p := s'.logs[p]]
    ensures forall k :: 0 <= k < |s'.sent| ==> StampInv(n, s', k)
  {
    forall k | 0 <= k < |s'.sent|
      ensures StampInv(n, s', k)
    {
      assert StampInv(n, s, k);
      var q, at := s.sent[k].d.from, s.sent[k].at;
      assert s'.logs[q][..at] == s.logs[q][..at];
    }
  }

  lemma ReceiveKeeps(n: nat, s: System, s': System, p: Node, k: nat)
    requires Inv(n, s) && NextStep(n, s, s', Receive(p, k))
    ensures Inv(n, s')
  {
    StepShapes(n, s, s', Receive(p, k));
    ReceiveNode(n, s, s', p, k);
    ReceiveStamps(n, s, s', p);
    forall q: Node | q < n
      ensures NodeInv(n, s', q)
    {
      if q != p {
        assert NodeInv(n, s, q);
        assert forall x :: Known(s, x) ==> Known(s', x);
      }
    }
  }

  lemma {:induction false} RunInv(n: nat, run: seq<System>, k: nat)
    requires IsRun(n, run) && k < |run|
    ensures Inv(n, run[k])
  {
    if k == 0 {
      assert forall p: Node :: p < n ==> NodeInv(n, run[0], p);
    } else {
      RunInv(n, run, k - 1);
      assert Next(n, run[k - 1], run[k - 1 + 1]);
      var step :| NextStep(n, run[k - 1], run[k], step);
      match step {
        case Bcast(p, m) => BcastKeeps(n, run[k - 1], p, m);
        case Receive(p, j) => ReceiveKeeps(n, run[k - 1], run[k], p, j);
      }
    }
  }
}
