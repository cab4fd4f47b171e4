/**
  One node of the waiting causal broadcast: vector stamps, deduplication, a list of
  messages parked until their causal past is delivered, and the loop that drains it.
  Nodes are named by their rank in the sorted membership; a rank of n or more is an
  unknown origin.
  */
module CausalNode {

  type Node = nat

  datatype Data = Data(from: Node, w: seq<nat>, m: string)

  datatype NodeState = NodeState(
    v: seq<nat>,                     // v[q]: how many messages of q are delivered
    lsn: nat,                        // how many messages this node has broadcast
    pending: seq<Data>,
    delivered: set<(Node, nat)>)     // every (origin, sequence number) received

  function Zeros(n: nat): seq<nat> {
    seq(n, _ => 0)
  }

  function Start(n: nat): NodeState {
    NodeState(Zeros(n), 0, [], {})
  }

  /** The stamp of the next broadcast, and the state after it. */
  function OnBcast(me: Node, s: NodeState, m: string): (NodeState, Data)
    requires me < |s.v|
  {
    (s.(lsn := s.lsn + 1), Data(me, s.v[me := s.lsn], m))
  }

  /** The whole causal past a stamp names has been delivered. */
  predicate Ready(w: seq<nat>, v: seq<nat>)
    requires |w| == |v|
  {
    forall q :: 0 <= q < |w| ==> w[q] <= v[q]
  }

  predicate WellFormed(n: nat, d: Data) {
    d.from < n && |d.w| == n
  }

  /** A well-formed message's identity. */
  function Id(d: Data): (Node, nat)
    requires d.from < |d.w|
  {
    (d.from, d.w[d.from])
  }

  predicate AllFormed(n: nat, list: seq<Data>) {
    forall i :: 0 <= i < |list| ==> WellFormed(n, list[i])
  }

  /** The position of the first ready message, or the length of the list. */
  function FirstReady(pending: seq<Data>, v: seq<nat>): (i: nat)
    requires AllFormed(|v|, pending)
    ensures i <= |pending|
    ensures i < |pending| ==> Ready(pending[i].w, v)
    ensures forall j :: 0 <= j < i ==> !Ready(pending[j].w, v)
  {
    if pending == [] || Ready(pending[0].w, v) then 0 else 1 + FirstReady(pending[1..], v)
  }

  function Remove(pending: seq<Data>, i: nat): seq<Data>
    requires i < |pending|
  {
    pending[..i] + pending[i + 1..]
  }

  /** The vector after delivering d. */
  function Counted(v: seq<nat>, d: Data): seq<nat>
    requires d.from < |v|
  {
    v[d.from := v[d.from] + 1]
  }

  datatype Drained = Drained(v: seq<nat>, pending: seq<Data>, out: seq<Data>)

  /** Deliver ready messages, first position first, until none is ready. */
  function Drain(v: seq<nat>, pending: seq<Data>): Drained
    requires AllFormed(|v|, pending)
    decreases |pending|
  {
    var i := FirstReady(pending, v);
    if i == |pending| then Drained(v, pending, [])
    else
      var d := pending[i];
      var rest := Drain(Counted(v, d), Remove(pending, i));
      rest.(out := [d] + rest.out)
  }

  // New state, relayed messages, delivered messages.
  datatype Effect = Effect(node: NodeState, relay: seq<Data>, out: seq<Data>)

  /**
    A message arrives: drop it if its origin is unknown, its stamp malformed, or it was seen; else relay, park, drain.
    */
  function OnReceive(s: NodeState, d: Data): Effect
    requires AllFormed(|s.v|, s.pending)
  {
    if !WellFormed(|s.v|, d) || Id(d) in s.delivered then Effect(s, [], []) else
    var r := Drain(s.v, s.pending + [d]);
    Effect(NodeState(r.v, s.lsn, r.pending, s.delivered + {Id(d)}), [d], r.out)
  }

  lemma RemoveFormed(n: nat, pending: seq<Data>, i: nat)
    requires AllFormed(n, pending) && i < |pending|
    ensures AllFormed(n, Remove(pending, i)) && |Remove(pending, i)| == |pending| - 1
  {
  }

  lemma {:induction false} DrainForms(v: seq<nat>, pending: seq<Data>)
    requires AllFormed(|v|, pending)
    ensures var r := Drain(v, pending); |r.v| == |v| && AllFormed(|v|, r.pending) && AllFormed(|v|, r.out)
    decreases |pending|
  {
    var i := FirstReady(pending, v);
    if i < |pending| {
      RemoveFormed(|v|, pending, i);
      DrainForms(Counted(v, pending[i]), Remove(pending, i));
    }
  }

  /** The drain loop always ends with nothing ready left. */
  lemma {:induction false} DrainEnds(v: seq<nat>, pending: seq<Data>)
    requires AllFormed(|v|, pending)
    ensures var r := Drain(v, pending);
            && |r.v| == |v| && AllFormed(|v|, r.pending)
            && forall i :: 0 <= i < |r.pending| ==> !Ready(r.pending[i].w, r.v)
    decreases |pending|
  {
    var i := FirstReady(pending, v);
    if i < |pending| {
      RemoveFormed(|v|, pending, i);
      DrainEnds(Counted(v, pending[i]), Remove(pending, i));
    }
  }

  lemma DrainStep(v: seq<nat>, pending: seq<Data>, i: nat, out: seq<Data>)
    requires AllFormed(|v|, pending) && i == FirstReady(pending, v) < |pending|
    ensures AllFormed(|v|, Remove(pending, i))
    ensures var r, rest := Drain(v, pending), Drain(Counted(v, pending[i]), Remove(pending, i));
            r.v == rest.v && r.pending == rest.pending && out + r.out == (out + [pending[i]]) + rest.out
  {
    RemoveFormed(|v|, pending, i);
    var rest := Drain(Counted(v, pending[i]), Remove(pending, i));
    assert out + ([pending[i]] + rest.out) == (out + [pending[i]]) + rest.out;
  }

  class CausalBroadcaster {
    const n: nat
    const me: Node
    var v: seq<nat>
    var lsn: nat
    var pending: seq<Data>
    var delivered: set<(Node, nat)>

    ghost function State(): NodeState
      reads this
    {
      NodeState(v, lsn, pending, delivered)
    }

    ghost predicate Valid()
      reads this
    {
      |v| == n && me < n && AllFormed(n, pending)
    }

    constructor (n: nat, me: Node)
      requires me < n
      ensures this.n == n && this.me == me && Valid() && State() == Start(n)
    {
      this.n, this.me := n, me;
      v, lsn, pending, delivered := Zeros(n), 0, [], {};
    }

    method Bcast(m: string) returns (d: Data)
      requires Valid()
      modifies this`lsn
      ensures Valid() && (State(), d) == OnBcast(me, old(State()), m)
    {
      d := Data(me, v[me := lsn], m);
      lsn := lsn + 1;
    }

    method Position() returns (i: nat)
      requires Valid()
      ensures i == FirstReady(pending, v)
    {
      i := 0;
      while i < |pending| && !Ready(pending[i].w, v)
        invariant i <= |pending|
        invariant FirstReady(pending, v) == i + FirstReady(pending[i..], v)
      {
        assert pending[i..][1..] == pending[i + 1..];
        i := i + 1;
      }
    }

    method DeliverAt(i: nat) returns (d: Data)
      requires Valid() && i < |pending|
      modifies this`v, this`pending
      ensures Valid() && d == old(pending)[i]
      ensures v == Counted(old(v), d) && pending == Remove(old(pending), i)
    {
      d := pending[i];
      RemoveFormed(n, pending, i);
      pending := pending[..i] + pending[i + 1..];
      v := v[d.from := v[d.from] + 1];
    }

    method DrainAll() returns (out: seq<Data>)
      requires Valid()
      modifies this`v, this`pending
      ensures Valid()
      ensures Drained(v, pending, out) == Drain(old(v), old(pending))
    {
      ghost var whole := Drain(v, pending);
      out := [];
      var i := Position();
      while i < |pending|
        invariant Valid() && i == FirstReady(pending, v)
        invariant Drain(v, pending).v == whole.v && Drain(v, pending).pending == whole.pending
        invariant out + Drain(v, pending).out == whole.out
        decreases |pending|
      {
        DrainStep(v, pending, i, out);
        var d := DeliverAt(i);
        out := out + [d];
        i := Position();
      }
      assert Drain(v, pending) == Drained(v, pending, []);
      assert out + [] == out;
    }

    method Receive(d: Data) returns (relay: seq<Data>, out: seq<Data>)
      requires Valid()
      modifies this
      ensures Valid()
      ensures Effect(State(), relay, out) == OnReceive(old(State()), d)
    {
      relay, out := [], [];
      if d.from >= n || |d.w| != n {
        return;
      }
      if Id(d) in delivered {
        return;
      }
      delivered := delivered + {Id(d)};
      relay := [d];
      pending := pending + [d];
      out := DrainAll();
    }
  }
}
