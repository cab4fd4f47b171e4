/**
  One node of Bracha's double-echo broadcast: its state, its three message arms, and
  the imperative node proved against them. Signatures are ideal, as statements a
  member can be shown to have made.
  */
module BrachaNode {
  import opened Options
  import opened Quorums

  type Node = nat
  type Value = string

  datatype Kind = SendKind | EchoKind | ReadyKind

  datatype Signature = Signature(signer: Node, kind: Kind, m: Value) | Garbage

  datatype Message = Message(kind: Kind, from: Node, m: Value, sig: Signature)

  datatype Config = Config(n: nat, sender: Option<Node>, faulty: set<Node>) {
    function F(): nat
      requires n >= 1
    {
      (n - 1) / 3
    }

    ghost predicate Valid() {
      n >= 1 && faulty <= Nodes(n) && |faulty| <= F()
    }

    ghost predicate Correct(p: Node) {
      p < n && p !in faulty
    }
  }

  datatype NodeState = NodeState(
    sentecho: bool,
    sentready: bool,
    delivered: bool,
    echos: map<Node, Value>,
    readys: map<Node, Value>)

  const FRESH := NodeState(false, false, false, map[], map[])

  function Seal(kind: Kind, me: Node, m: Value): Message {
    Message(kind, me, m, Signature(me, kind, m))
  }

  predicate VerifyEnvelope(c: Config, msg: Message) {
    msg.from < c.n && msg.sig == Signature(msg.from, msg.kind, msg.m)
  }

  function OrInsert(tally: map<Node, Value>, from: Node, m: Value): map<Node, Value> {
    if from in tally then tally else tally[from := m]
  }

  function VotersFor(tally: map<Node, Value>, m: Value): set<Node> {
    set q | q in tally && tally[q] == m
  }

  // New state, messages sent, value delivered.
  datatype Effect = Effect(node: NodeState, out: seq<Message>, output: Option<Value>)

  function OnSend(c: Config, me: Node, r: NodeState, from: Node, m: Value): Effect {
    if c.sender == Some(from) && !r.sentecho then Effect(r.(sentecho := true), [Seal(EchoKind, me, m)], None)
    else Effect(r, [], None)
  }

  function OnEcho(c: Config, me: Node, r: NodeState, from: Node, m: Value): Effect
    requires c.n >= 1
  {
    var tallied := r.(echos := OrInsert(r.echos, from, m));
    if 2 * |VotersFor(tallied.echos, m)| > c.n + c.F() && !r.sentready
    then Effect(tallied.(sentready := true), [Seal(ReadyKind, me, m)], None)
    else Effect(tallied, [], None)
  }

  function OnReady(c: Config, me: Node, r: NodeState, from: Node, m: Value): Effect
    requires c.n >= 1
  {
    var tallied := r.(readys := OrInsert(r.readys, from, m));
    var count := |VotersFor(tallied.readys, m)|;
    var amplifies := count > c.F() && !r.sentready;
    var delivers := count > 2 * c.F() && !r.delivered;
    Effect(tallied.(sentready := r.sentready || amplifies, delivered := r.delivered || delivers),
           if amplifies then [Seal(ReadyKind, me, m)] else [],
           if delivers then Some(m) else None)
  }

  function Handle(c: Config, me: Node, r: NodeState, msg: Message): Effect
    requires c.n >= 1
  {
    if !VerifyEnvelope(c, msg) then Effect(r, [], None) else
    match msg.kind
    case SendKind => OnSend(c, me, r, msg.from, msg.m)
    case EchoKind => OnEcho(c, me, r, msg.from, msg.m)
    case ReadyKind => OnReady(c, me, r, msg.from, msg.m)
  }

  class Broadcaster {
    const c: Config
    const me: Node
    var sentecho: bool
    var sentready: bool
    var delivered: bool
    var echos: map<Node, Value>
    var readys: map<Node, Value>

    ghost function State(): NodeState
      reads this
    {
      NodeState(sentecho, sentready, delivered, echos, readys)
    }

    constructor (c: Config, me: Node)
      ensures this.c == c && this.me == me && State() == FRESH
    {
      this.c, this.me := c, me;
      sentecho, sentready, delivered, echos, readys := false, false, false, map[], map[];
    }

    method Receive(msg: Message) returns (out: seq<Message>, output: Option<Value>)
      requires c.n >= 1
      modifies this
      ensures Effect(State(), out, output) == Handle(c, me, old(State()), msg)
    {
      out, output := [], None;
      if !VerifyEnvelope(c, msg) {
        return;
      }
      match msg.kind {
        case SendKind =>
          if c.sender == Some(msg.from) && !sentecho {
            sentecho := true;
            out := [Seal(EchoKind, me, msg.m)];
          }
        case EchoKind =>
          echos := OrInsert(echos, msg.from, msg.m);
          var count := |VotersFor(echos, msg.m)|;
          if 2 * count > c.n + c.F() && !sentready {
            sentready := true;
            out := [Seal(ReadyKind, me, msg.m)];
          }
        case ReadyKind =>
          readys := OrInsert(readys, msg.from, msg.m);
          var count := |VotersFor(readys, msg.m)|;
          if count > c.F() && !sentready {
            sentready := true;
            out := [Seal(ReadyKind, me, msg.m)];
          }
          if count > 2 * c.F() && !delivered {
            delivered := true;
            output := Some(msg.m);
          }
      }
    }
  }
}
