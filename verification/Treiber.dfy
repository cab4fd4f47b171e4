/**
  The Treiber stack under any interleaving of any number of threads. Each load, link
  and compare-exchange is one step. Nodes are never freed, so an address is used once.
  */
module Treiber {
  import opened Options

  type Addr = nat
  type Tid = nat

  datatype Cell = Cell(value: nat, next: Option<Addr>)

  // Where a thread is: between operations, in push with its own node, or in pop.
  datatype Pc =
    | Idle
    | PushLoad(node: Addr)                               // about to load top
    | PushLink(node: Addr, seen: Option<Addr>)           // about to write node.next
    | PushCas(node: Addr, seen: Option<Addr>)            // about to compare-exchange
    | PopLoad
    | PopRead(at: Addr)                                  // about to read the seen node's next
    | PopCas(at: Addr, next: Option<Addr>)
    | PopValue(at: Addr)                                 // won; about to read the value

  datatype Call = CallPush(w: nat) | CallPop
  datatype Op = Push(v: nat) | Pop(r: Option<nat>)

  datatype System = System(
    heap: map<Addr, Cell>,
    top: Option<Addr>,
    pcs: seq<Pc>,
    calls: seq<(Tid, Call)>,        // history: operations in the order they were called
    effects: seq<(Tid, Op)>,        // history: operations in the order they took effect
    returned: seq<(Tid, Op)>)       // history: operations in the order they returned

  datatype Step = StartPush(v: nat, unused: Addr) | StartPop | Run

  ghost predicate Init(s: System) {
    && s.heap == map[] && s.top == None && s.calls == [] && s.effects == [] && s.returned == []
    && forall t :: 0 <= t < |s.pcs| ==> s.pcs[t] == Idle
  }

  /** The next atomic step of thread t inside an operation. */
  function RunStep(s: System, t: Tid): Option<System>
    requires t < |s.pcs|
  {
    match s.pcs[t]
    case Idle => None
    case PushLoad(node) => Some(s.(pcs := s.pcs[t := PushLink(node, s.top)]))
    case PushLink(node, seen) =>
      if node !in s.heap then None else
      Some(s.(heap := s.heap[node := s.heap[node].(next := seen)], pcs := s.pcs[t := PushCas(node, seen)]))
    case PushCas(node, seen) =>
      if s.top != seen then Some(s.(pcs := s.pcs[t := PushLoad(node)])) else
      if node !in s.heap then None else
      var done := (t, Push(s.heap[node].value));
      Some(s.(top := Some(node), pcs := s.pcs[t := Idle],
              effects := s.effects + [done], returned := s.returned + [done]))
    case PopLoad =>
      if s.top.None? then
        var done := (t, Pop(None));
        Some(s.(pcs := s.pcs[t := Idle], effects := s.effects + [done], returned := s.returned + [done]))
      else Some(s.(pcs := s.pcs[t := PopRead(s.top.value)]))
    case PopRead(at) =>
      if at !in s.heap then None else Some(s.(pcs := s.pcs[t := PopCas(at, s.heap[at].next)]))
    case PopCas(at, next) =>
      if s.top != Some(at) then Some(s.(pcs := s.pcs[t := PopLoad])) else
      if at !in s.heap then None else
      Some(s.(top := next, pcs := s.pcs[t := PopValue(at)], effects := s.effects + [(t, Pop(Some(s.heap[at].value)))]))
    case PopValue(at) =>
      if at !in s.heap then None else
      Some(s.(pcs := s.pcs[t := Idle], returned := s.returned + [(t, Pop(Some(s.heap[at].value)))]))
  }

  ghost predicate NextStep(s: System, s': System, t: Tid, step: Step) {
    && t < |s.pcs|
    && match step
       case StartPush(v, unused) =>
         && s.pcs[t] == Idle && unused !in s.heap
         && s' == s.(heap := s.heap[unused := Cell(v, None)], pcs := s.pcs[t := PushLoad(unused)],
                       calls := s.calls + [(t, CallPush(v))])
       case StartPop =>
         s.pcs[t] == Idle && s' == s.(pcs := s.pcs[t := PopLoad], calls := s.calls + [(t, CallPop)])
       case Run => RunStep(s, t) == Some(s')
  }

  ghost predicate Next(s: System, s': System) {
    exists t, step :: NextStep(s, s', t, step)
  }

  ghost predicate IsRun(run: seq<System>) {
    && |run| > 0
    && Init(run[0])
    && forall i :: 0 <= i < |run| - 1 ==> Next(run[i], run[i + 1])
  }

  // ---------------------------------------------------------- the sequential stack

  /** One operation on a stack, top first; None if its result is not what the stack would give. */
  function Perform(stack: seq<nat>, op: Op): Option<seq<nat>> {
    match op
    case Push(v) => Some([v] + stack)
    case Pop(None) => if stack == [] then Some([]) else None
    case Pop(Some(v)) => if stack != [] && stack[0] == v then Some(stack[1..]) else None
  }

  /** The stack after a history of operations, each with the result the stack gives it. */
  function Replay(ops: seq<(Tid, Op)>): Option<seq<nat>> {
    if ops == [] then Some([]) else
    match Replay(ops[..|ops| - 1])
    case None => None
    case Some(stack) => Perform(stack, ops[|ops| - 1].1)
  }

  /** The part of a history that is thread t's. */
  function Of<T>(t: Tid, log: seq<(Tid, T)>): seq<T> {
    if log == [] then [] else
    var (u, item) := log[|log| - 1];
    Of(t, log[..|log| - 1]) + if u == t then [item] else []
  }

  function Asked(op: Op): Call {
    match op
    case Push(v) => CallPush(v)
    case Pop(_) => CallPop
  }

  function AskedAll(ops: seq<Op>): seq<Call> {
    seq(|ops|, i requires 0 <= i < |ops| => Asked(ops[i]))
  }

  lemma ReplayMore(ops: seq<(Tid, Op)>, last: (Tid, Op))
    ensures Replay(ops).Some? ==> Replay(ops + [last]) == Perform(Replay(ops).value, last.1)
    ensures forall t :: Of(t, ops + [last]) == Of(t, ops) + if last.0 == t then [last.1] else []
  {
    assert (ops + [last])[..|ops + [last]| - 1] == ops;
  }

  // ------------------------------------------------------------------- invariant

  function NextAddr(chain: seq<Addr>, i: nat): Option<Addr> {
    if i + 1 < |chain| then Some(chain[i + 1]) else None
  }

  /** The nodes reached from top, in order: finite and without repetition. */
  ghost predicate IsChain(s: System, chain: seq<Addr>) {
    && s.top == (if chain == [] then None else Some(chain[0]))
    && (forall i :: 0 <= i < |chain| ==> chain[i] in s.heap && s.heap[chain[i]].next == NextAddr(chain, i))
    && (forall i, j :: 0 <= i < j < |chain| ==> chain[i] != chain[j])
  }

  function Values(heap: map<Addr, Cell>, chain: seq<Addr>): seq<nat>
    requires forall i :: 0 <= i < |chain| ==> chain[i] in heap
  {
    seq(|chain|, i requires 0 <= i < |chain| => heap[chain[i]].value)
  }

  /** The node a thread has allocated and not yet published. */
  function Private(pc: Pc): set<Addr> {
    match pc
    case PushLoad(node) => {node}
    case PushLink(node, _) => {node}
    case PushCas(node, _) => {node}
    case _ => {}
  }

  /** Published nodes: those some push has made reachable, still linked or not. */
  ghost predicate Published(s: System, a: Addr) {
    a in s.heap && forall t :: 0 <= t < |s.pcs| ==> a !in Private(s.pcs[t])
  }

  ghost predicate PcInv(s: System, t: Tid)
    requires t < |s.pcs|
  {
    match s.pcs[t]
    case Idle => true
    case PushLoad(node) => node in s.heap
    case PushLink(node, _) => node in s.heap
    case PushCas(node, seen) => node in s.heap && s.heap[node].next == seen
    case PopLoad => true
    case PopRead(at) => Published(s, at)
    case PopCas(at, next) => Published(s, at) && s.heap[at].next == next
    case PopValue(at) => Published(s, at)
  }

  // What a thread has taken effect but not yet returned.
  function Owed(s: System, t: Tid): seq<Op>
    requires t < |s.pcs|
  {
    if s.pcs[t].PopValue? && s.pcs[t].at in s.heap then [Pop(Some(s.heap[s.pcs[t].at].value))] else []
  }

  // What a thread has called and not yet taken effect.
  function Pending(s: System, t: Tid): seq<Call>
    requires t < |s.pcs|
  {
    match s.pcs[t]
    case Idle => []
    case PushLoad(node) => if node in s.heap then [CallPush(s.heap[node].value)] else []
    case PushLink(node, _) => if node in s.heap then [CallPush(s.heap[node].value)] else []
    case PushCas(node, _) => if node in s.heap then [CallPush(s.heap[node].value)] else []
    case PopLoad => [CallPop]
    case PopRead(_) => [CallPop]
    case PopCas(_, _) => [CallPop]
    case PopValue(_) => []
  }

  ghost predicate CallInv(s: System) {
    forall t: Tid :: t < |s.pcs| ==> Of(t, s.calls) == AskedAll(Of(t, s.effects)) + Pending(s, t)
  }

  ghost predicate ChainInv(s: System, chain: seq<Addr>) {
    && IsChain(s, chain)
    && (forall i :: 0 <= i < |chain| ==> Published(s, chain[i]))
    && Replay(s.effects) == Some(Values(s.heap, chain))
  }

  ghost predicate HasChain(s: System) {
    exists chain :: ChainInv(s, chain)
  }

  ghost predicate ThreadsOk(s: System) {
    && (forall t: Tid :: t < |s.pcs| ==> PcInv(s, t))
    && (forall t, u :: 0 <= t < u < |s.pcs| ==> Private(s.pcs[t]) !! Private(s.pcs[u]))
    && (forall t: Tid :: t < |s.pcs| ==> Of(t, s.effects) == Of(t, s.returned) + Owed(s, t))
  }

  ghost predicate Inv(s: System) {
    HasChain(s) && ThreadsOk(s)
  }

  // ------------------------------------------------------------------- every step

  /** A step that leaves top and every published node alone. */
  ghost predicate Local(s: System, s': System, t: Tid) {
    && t < |s.pcs| && |s'.pcs| == |s.pcs|
    && s'.pcs == s.pcs[t := s'.pcs[t]]
    && s'.top == s.top
    && (forall a :: Published(s, a) ==> Published(s', a) && s'.heap[a] == s.heap[a])
  }

  lemma LocalChain(s: System, s': System, t: Tid)
    requires Local(s, s', t) && s'.effects == s.effects && HasChain(s)
    ensures HasChain(s')
  {
    var chain :| ChainInv(s, chain);
    assert Values(s'.heap, chain) == Values(s.heap, chain);
    assert ChainInv(s', chain);
  }

  /** A local step leaves thread t as its invariant says, and the others as they were. */
  ghost predicate Alone(s: System, s': System, t: Tid)
    requires t < |s.pcs| == |s'.pcs|
  {
    && PcInv(s', t) && Of(t, s'.effects) == Of(t, s'.returned) + Owed(s', t)
    && (forall u: Tid :: u < |s.pcs| && u != t ==> Private(s'.pcs[t]) !! Private(s.pcs[u]))
    && (forall u: Tid, a :: u < |s.pcs| && u != t && a in Private(s.pcs[u]) ==>
          a in s.heap && a in s'.heap && s'.heap[a] == s.heap[a])
    && (forall u: Tid :: u < |s.pcs| && u != t ==> Of(u, s'.returned) == Of(u, s.returned))
  }

  lemma {:induction false} OtherKeeps(s: System, s': System, t: Tid, u: Tid)
    requires ThreadsOk(s) && Local(s, s', t) && s'.effects == s.effects && Alone(s, s', t) && u < |s.pcs| && u != t
    ensures PcInv(s', u) && Of(u, s'.effects) == Of(u, s'.returned) + Owed(s', u)
  {
    assert PcInv(s, u);
    assert s'.pcs[u] == s.pcs[u];
    assert Owed(s', u) == Owed(s, u);
  }

  lemma {:induction false} LocalKeeps(s: System, s': System, t: Tid)
    requires Inv(s) && Local(s, s', t) && s'.effects == s.effects && Alone(s, s', t)
    ensures Inv(s')
  {
    LocalChain(s, s', t);
    forall u: Tid | u < |s'.pcs|
      ensures PcInv(s', u) && Of(u, s'.effects) == Of(u, s'.returned) + Owed(s', u)
    {
      if u != t {
        OtherKeeps(s, s', t, u);
      }
    }
  }

  lemma PrivateInHeap(s: System)
    requires ThreadsOk(s)
    ensures forall u: Tid, a :: u < |s.pcs| && a in Private(s.pcs[u]) ==> a in s.heap
  {
    forall u: Tid, a | u < |s.pcs| && a in Private(s.pcs[u])
      ensures a in s.heap
    {
      assert PcInv(s, u);
    }
  }

  lemma {:induction false} StartIsLocal(s: System, s': System, t: Tid, step: Step)
    requires ThreadsOk(s) && !step.Run? && NextStep(s, s', t, step)
    ensures Local(s, s', t) && Alone(s, s', t) && s'.effects == s.effects
  {
    PrivateInHeap(s);
    assert Of(t, s.effects) == Of(t, s.returned) + Owed(s, t);
    assert s'.pcs == s.pcs[t := s'.pcs[t]];
  }

  lemma TopIsPublished(s: System)
    requires HasChain(s) && s.top.Some?
    ensures Published(s, s.top.value)
  {
    var chain :| ChainInv(s, chain);
    assert chain[0] == s.top.value;
  }

  /** A step inside an operation that neither takes effect nor returns. */
  lemma {:induction false} QuietRunIsLocal(s: System, s': System, t: Tid)
    requires Inv(s) && t < |s.pcs| && RunStep(s, t) == Some(s') && s'.effects == s.effects && s'.returned == s.returned
    ensures Local(s, s', t) && Alone(s, s', t)
  {
    PrivateInHeap(s);
    assert PcInv(s, t);
    assert Of(t, s.effects) == Of(t, s.returned) + Owed(s, t);
    if s.pcs[t].PopLoad? && s.top.Some? {
      TopIsPublished(s);
    }
    assert s'.pcs == s.pcs[t := s'.pcs[t]];
    assert Owed(s', t) == Owed(s, t);
  }

  lemma {:induction false} ValueReadIsLocal(s: System, s': System, t: Tid)
    requires ThreadsOk(s) && t < |s.pcs| && s.pcs[t].PopValue? && RunStep(s, t) == Some(s')
    ensures Local(s, s', t) && Alone(s, s', t) && s'.effects == s.effects
  {
    PrivateInHeap(s);
    var last := (t, Pop(Some(s.heap[s.pcs[t].at].value)));
    ReplayMore(s.returned, last);
    assert Of(t, s.effects) == Of(t, s.returned) + Owed(s, t);
  }

  /** An operation takes effect, and returns at once unless it is a won pop. */
  ghost predicate Effective(s: System, s': System, t: Tid, op: Op) {
    && t < |s.pcs| == |s'.pcs| && s'.pcs == s.pcs[t := s'.pcs[t]]
    && s'.heap == s.heap
    && s'.effects == s.effects + [(t, op)]
    && Private(s'.pcs[t]) == {} && PcInv(s', t)
    && ((s'.returned == s.returned + [(t, op)] && s'.pcs[t] == Idle)
        || (s'.returned == s.returned && Owed(s', t) == [op]))
    && !s.pcs[t].PopValue?
  }

  lemma {:induction false} EffectiveKeeps(s: System, s': System, t: Tid, op: Op)
    requires ThreadsOk(s) && Effective(s, s', t, op)
    ensures ThreadsOk(s')
  {
    ReplayMore(s.effects, (t, op));
    ReplayMore(s.returned, (t, op));
    forall u: Tid | u < |s'.pcs|
      ensures PcInv(s', u)
    {
      assert PcInv(s, u);
    }
    forall u: Tid | u < |s'.pcs|
      ensures Of(u, s'.effects) == Of(u, s'.returned) + Owed(s', u)
    {
      assert Of(u, s.effects) == Of(u, s.returned) + Owed(s, u);
      assert u != t ==> Owed(s', u) == Owed(s, u);
    }
  }

  lemma PushedChain(s: System, s': System, chain: seq<Addr>, node: Addr)
    requires IsChain(s, chain) && (forall i :: 0 <= i < |chain| ==> chain[i] != node)
    requires node in s.heap && s.heap[node].next == s.top && s'.heap == s.heap && s'.top == Some(node)
    ensures IsChain(s', [node] + chain)
    ensures Values(s'.heap, [node] + chain) == [s.heap[node].value] + Values(s.heap, chain)
  {
    var chain' := [node] + chain;
    forall i | 0 <= i < |chain'|
      ensures chain'[i] in s'.heap && s'.heap[chain'[i]].next == NextAddr(chain', i)
    {
      if i > 0 {
        assert s.heap[chain[i - 1]].next == NextAddr(chain, i - 1);
      }
    }
  }

  /** A thread that publishes its own node adds it on top. */
  lemma {:induction false} PushedChainInv(s: System, s': System, chain: seq<Addr>, t: Tid, node: Addr)
    requires ChainInv(s, chain) && t < |s.pcs| && Private(s.pcs[t]) == {node} && s'.pcs == s.pcs[t := Idle]
    requires forall u: Tid :: u < |s.pcs| && u != t ==> node !in Private(s.pcs[u])
    requires node in s.heap && s.heap[node].next == s.top && s'.heap == s.heap && s'.top == Some(node)
    requires s'.effects == s.effects + [(t, Push(s.heap[node].value))]
    ensures ChainInv(s', [node] + chain)
  {
    ReplayMore(s.effects, (t, Push(s.heap[node].value)));
    forall i | 0 <= i < |chain|
      ensures chain[i] != node && Published(s', chain[i])
    {
      assert Published(s, chain[i]);
    }
    PushedChain(s, s', chain, node);
    assert Published(s', node);
  }

  lemma OthersApart(s: System, t: Tid, node: Addr)
    requires ThreadsOk(s) && t < |s.pcs| && Private(s.pcs[t]) == {node}
    ensures forall u: Tid :: u < |s.pcs| && u != t ==> node !in Private(s.pcs[u])
  {
    forall u: Tid | u < |s.pcs| && u != t
      ensures node !in Private(s.pcs[u])
    {
      assert u < t || t < u;
    }
  }

  lemma {:induction false} PushTakesEffect(s: System, s': System, t: Tid)
    requires Inv(s) && t < |s.pcs| && s.pcs[t].PushCas? && s.top == s.pcs[t].seen && RunStep(s, t) == Some(s')
    ensures s.pcs[t].node in s.heap && Effective(s, s', t, Push(s.heap[s.pcs[t].node].value)) && HasChain(s')
  {
    var node := s.pcs[t].node;
    assert PcInv(s, t);
    OthersApart(s, t, node);
    PushKeepsChain(s, s', t, node);
  }

  lemma PushKeepsChain(s: System, s': System, t: Tid, node: Addr)
    requires HasChain(s) && t < |s.pcs| && Private(s.pcs[t]) == {node} && s'.pcs == s.pcs[t := Idle]
    requires forall u: Tid :: u < |s.pcs| && u != t ==> node !in Private(s.pcs[u])
    requires node in s.heap && s.heap[node].next == s.top && s'.heap == s.heap && s'.top == Some(node)
    requires s'.effects == s.effects + [(t, Push(s.heap[node].value))]
    ensures HasChain(s')
  {
    var chain :| ChainInv(s, chain);
    PushedChainInv(s, s', chain, t, node);
  }

  lemma PoppedChain(s: System, s': System, chain: seq<Addr>)
    requires IsChain(s, chain) && chain != [] && s'.heap == s.heap && s'.top == s.heap[chain[0]].next
    ensures IsChain(s', chain[1..])
    ensures Values(s.heap, chain) == [s.heap[chain[0]].value] + Values(s'.heap, chain[1..])
  {
    var chain' := chain[1..];
    forall i | 0 <= i < |chain'|
      ensures chain'[i] in s'.heap && s'.heap[chain'[i]].next == NextAddr(chain', i)
    {
      assert chain'[i] == chain[i + 1];
      assert s.heap[chain[i + 1]].next == NextAddr(chain, i + 1);
    }
    assert s.heap[chain[0]].next == NextAddr(chain, 0);
  }

  /** A thread that unlinks the top node takes its value off the stack. */
  lemma {:induction false} PoppedChainInv(s: System, s': System, chain: seq<Addr>, t: Tid)
    requires ChainInv(s, chain) && chain != [] && t < |s.pcs|
    requires s'.heap == s.heap && s'.top == s.heap[chain[0]].next && s'.pcs == s.pcs[t := PopValue(chain[0])]
    requires s'.effects == s.effects + [(t, Pop(Some(s.heap[chain[0]].value)))]
    ensures ChainInv(s', chain[1..])
  {
    PoppedChain(s, s', chain);
    ReplayMore(s.effects, (t, Pop(Some(s.heap[chain[0]].value))));
    assert Values(s.heap, chain)[1..] == Values(s'.heap, chain[1..]);
    forall i | 0 <= i < |chain[1..]|
      ensures Published(s', chain[1..][i])
    {
      assert Published(s, chain[i + 1]);
    }
  }

  lemma {:induction false} PopTakesEffect(s: System, s': System, t: Tid)
    requires Inv(s) && t < |s.pcs| && s.pcs[t].PopCas? && s.top == Some(s.pcs[t].at) && RunStep(s, t) == Some(s')
    ensures s.pcs[t].at in s.heap && Effective(s, s', t, Pop(Some(s.heap[s.pcs[t].at].value))) && HasChain(s')
  {
    var chain :| ChainInv(s, chain);
    assert PcInv(s, t);
    assert chain[0] == s.pcs[t].at;
    assert Published(s', s.pcs[t].at);
    PoppedChainInv(s, s', chain, t);
  }

  lemma {:induction false} EmptyPopChain(s: System, s': System, t: Tid)
    requires HasChain(s) && t < |s.pcs| && Private(s.pcs[t]) == {} && s.top.None?
    requires s'.heap == s.heap && s'.top == s.top && s'.effects == s.effects + [(t, Pop(None))]
    ensures HasChain(s')
  {
    var chain :| ChainInv(s, chain);
    assert chain == [];
    assert Values(s.heap, []) == [] && Values(s'.heap, []) == [];
    ReplayMore(s.effects, (t, Pop(None)));
    assert ChainInv(s', []);
  }

  lemma {:induction false} EmptyPopTakesEffect(s: System, s': System, t: Tid)
    requires HasChain(s) && t < |s.pcs| && s.pcs[t].PopLoad? && s.top.None? && RunStep(s, t) == Some(s')
    ensures Effective(s, s', t, Pop(None)) && HasChain(s')
  {
    EmptyPopChain(s, s', t);
  }

  lemma StepKeepsInv(s: System, s': System, t: Tid, step: Step)
    requires Inv(s) && NextStep(s, s', t, step)
    ensures Inv(s')
  {
    if !step.Run? {
      StartIsLocal(s, s', t, step);
      LocalKeeps(s, s', t);
    } else if s.pcs[t].PushCas? && s.top == s.pcs[t].seen {
      PushTakesEffect(s, s', t);
      EffectiveKeeps(s, s', t, Push(s.heap[s.pcs[t].node].value));
    } else if s.pcs[t].PopCas? && s.top == Some(s.pcs[t].at) {
      PopTakesEffect(s, s', t);
      EffectiveKeeps(s, s', t, Pop(Some(s.heap[s.pcs[t].at].value)));
    } else if s.pcs[t].PopLoad? && s.top.None? {
      EmptyPopTakesEffect(s, s', t);
      EffectiveKeeps(s, s', t, Pop(None));
    } else if s.pcs[t].PopValue? {
      ValueReadIsLocal(s, s', t);
      LocalKeeps(s, s', t);
    } else {
      QuietRunIsLocal(s, s', t);
      LocalKeeps(s, s', t);
    }
  }

  function Entry<T>(t: Tid, items: seq<T>): seq<(Tid, T)> {
    if items == [] then [] else [(t, items[0])]
  }

  lemma LogMore<T>(log: seq<(Tid, T)>, t: Tid, items: seq<T>, u: Tid)
    requires |items| <= 1
    ensures Of(u, log + Entry(t, items)) == Of(u, log) + if u == t then items else []
  {
    if items == [] {
      assert log + Entry(t, items) == log;
    } else {
      var last := (t, items[0]);
      assert items == [items[0]];
      assert log + Entry(t, items) == log + [last];
      assert (log + [last])[..|log + [last]| - 1] == log;
    }
  }

  /** The values of allocated nodes never change. */
  lemma ValuesStay(s: System, s': System, t: Tid, step: Step)
    requires NextStep(s, s', t, step)
    ensures forall a :: a in s.heap ==> a in s'.heap && s'.heap[a].value == s.heap[a].value
    ensures |s'.pcs| == |s.pcs| && forall u: Tid :: u < |s.pcs| && u != t ==> s'.pcs[u] == s.pcs[u]
  {
  }

  /** What a step of thread t adds to the two histories, all of it t's: a call, an effect, or nothing. */
  ghost predicate Adds(s: System, s': System, t: Tid, calls: seq<Call>, ops: seq<Op>) {
    && |calls| <= 1 && |ops| <= 1
    && s'.calls == s.calls + Entry(t, calls)
    && s'.effects == s.effects + Entry(t, ops)
  }

  lemma {:induction false} StepAdds(s: System, s': System, t: Tid, step: Step) returns (calls: seq<Call>, ops: seq<Op>)
    requires NextStep(s, s', t, step) && PcInv(s, t)
    ensures Adds(s, s', t, calls, ops) && Pending(s, t) + calls == AskedAll(ops) + Pending(s', t)
  {
    calls := if s'.calls == s.calls then [] else [s'.calls[|s.calls|].1];
    ops := if s'.effects == s.effects then [] else [s'.effects[|s.effects|].1];
  }

  lemma {:induction false} Balance(asked: seq<Call>, done: seq<Op>, pending: seq<Call>,
                                   calls: seq<Call>, ops: seq<Op>, pending': seq<Call>)
    requires asked == AskedAll(done) + pending && pending + calls == AskedAll(ops) + pending'
    ensures asked + calls == AskedAll(done + ops) + pending'
  {
    assert AskedAll(done + ops) == AskedAll(done) + AskedAll(ops);
    calc {
      asked + calls;
      AskedAll(done) + (pending + calls);
      AskedAll(done) + (AskedAll(ops) + pending');
      AskedAll(done + ops) + pending';
    }
  }

  lemma {:induction false} AddsKeepCalls(s: System, s': System, t: Tid, u: Tid, calls: seq<Call>, ops: seq<Op>)
    requires Adds(s, s', t, calls, ops) && u < |s.pcs| == |s'.pcs|
    requires Of(u, s.calls) == AskedAll(Of(u, s.effects)) + Pending(s, u)
    requires if u == t then Pending(s, u) + calls == AskedAll(ops) + Pending(s', u) else Pending(s', u) == Pending(s, u)
    ensures Of(u, s'.calls) == AskedAll(Of(u, s'.effects)) + Pending(s', u)
  {
    LogMore(s.calls, t, calls, u);
    LogMore(s.effects, t, ops, u);
    if u == t {
      Balance(Of(u, s.calls), Of(u, s.effects), Pending(s, u), calls, ops, Pending(s', u));
    } else {
      assert Of(u, s.calls) + [] == Of(u, s.calls) && Of(u, s.effects) + [] == Of(u, s.effects);
    }
  }

  lemma {:induction false} StepKeepsCalls(s: System, s': System, t: Tid, step: Step)
    requires (forall u: Tid :: u < |s.pcs| ==> PcInv(s, u)) && CallInv(s) && NextStep(s, s', t, step)
    ensures CallInv(s')
  {
    ValuesStay(s, s', t, step);
    var calls, ops := StepAdds(s, s', t, step);
    forall u: Tid | u < |s'.pcs|
      ensures Of(u, s'.calls) == AskedAll(Of(u, s'.effects)) + Pending(s', u)
    {
      assert PcInv(s, u);
      AddsKeepCalls(s, s', t, u, calls, ops);
    }
  }

  // ------------------------------------------------------------------- all runs

  lemma {:induction false} RunInv(run: seq<System>, i: nat)
    requires IsRun(run) && i < |run|
    ensures Inv(run[i]) && CallInv(run[i])
  {
    if i == 0 {
      assert Values(run[0].heap, []) == [];
      assert ChainInv(run[0], []);
    } else {
      RunInv(run, i - 1);
      assert Next(run[i - 1], run[i - 1 + 1]);
      var t, step :| NextStep(run[i - 1], run[i], t, step);
      StepKeepsInv(run[i - 1], run[i], t, step);
      StepKeepsCalls(run[i - 1], run[i], t, step);
    }
  }

  /**
    Linearizability: in every run, the chain from top is finite and without repetition,
    and holds exactly what a sequential stack holds after the operations in the order
    they took effect. The replay being defined says that every pop took the then topmost
    value, and found nothing only when the stack was empty.
    */
  lemma Linearizable(run: seq<System>, i: nat)
    requires IsRun(run) && i < |run|
    ensures exists chain :: IsChain(run[i], chain) && Replay(run[i].effects) == Some(Values(run[i].heap, chain))
  {
    RunInv(run, i);
    var chain :| ChainInv(run[i], chain);
  }

  /**
    What each thread called is what took effect for it, in its own order and with the
    values it pushed, and what took effect is what it was returned: at most one call is
    still pending, and at most one result, that of a won pop, still owed.
    */
  lemma ResultsReturned(run: seq<System>, i: nat, t: Tid)
    requires IsRun(run) && i < |run| && t < |run[i].pcs|
    ensures Of(t, run[i].calls) == AskedAll(Of(t, run[i].effects)) + Pending(run[i], t)
    ensures Of(t, run[i].effects) == Of(t, run[i].returned) + Owed(run[i], t)
    ensures run[i].pcs[t] == Idle ==>
              Of(t, run[i].effects) == Of(t, run[i].returned) && Of(t, run[i].calls) == AskedAll(Of(t, run[i].returned))
  {
    RunInv(run, i);
  }

  /** No thread ever follows an address that was not allocated. */
  lemma NoWildAccess(run: seq<System>, i: nat, t: Tid)
    requires IsRun(run) && i < |run| && t < |run[i].pcs|
    ensures RunStep(run[i], t).None? <==> run[i].pcs[t] == Idle
  {
    RunInv(run, i);
    assert PcInv(run[i], t);
  }

  lemma TakeOne(stack: seq<nat>, v: nat)
    requires stack != [] && stack[0] == v
    ensures multiset(stack) == multiset{v} + multiset(stack[1..])
  {
    assert stack == [v] + stack[1..];
  }

  function Pushed(ops: seq<(Tid, Op)>): multiset<nat> {
    if ops == [] then multiset{}
    else Pushed(ops[..|ops| - 1]) + if ops[|ops| - 1].1.Push? then multiset{ops[|ops| - 1].1.v} else multiset{}
  }

  function Popped(ops: seq<(Tid, Op)>): multiset<nat> {
    if ops == [] then multiset{}
    else
      var op := ops[|ops| - 1].1;
      Popped(ops[..|ops| - 1]) + if op.Pop? && op.r.Some? then multiset{op.r.value} else multiset{}
  }

  lemma {:induction false} ReplayConserves(ops: seq<(Tid, Op)>)
    requires Replay(ops).Some?
    ensures Pushed(ops) == Popped(ops) + multiset(Replay(ops).value)
  {
    if ops != [] {
      var front, op := ops[..|ops| - 1], ops[|ops| - 1].1;
      ReplayConserves(front);
      var stack := Replay(front).value;
      match op {
        case Push(v) => TakeOne([v] + stack, v);
        case Pop(None) =>
        case Pop(Some(v)) =>
          TakeOne(stack, v);
      }
    }
  }

  /** Conservation: pushed values are popped ones plus those on the stack, no push lost and no pop duplicated. */
  lemma Conservation(run: seq<System>, i: nat)
    requires IsRun(run) && i < |run|
    ensures exists chain :: IsChain(run[i], chain)
              && Pushed(run[i].effects) == Popped(run[i].effects) + multiset(Values(run[i].heap, chain))
  {
    Linearizable(run, i);
    ReplayConserves(run[i].effects);
  }

  // ------------------------------------------------- the loops, without a rival

  lemma ChainAfterPush(before: System, after: System, chain: seq<Addr>, node: Addr)
    requires IsChain(before, chain) && node !in before.heap && node in after.heap
    requires after.heap[node].next == before.top && after.top == Some(node)
    requires forall a :: a in before.heap ==> a in after.heap && after.heap[a] == before.heap[a]
    ensures IsChain(after, [node] + chain)
    ensures Values(after.heap, [node] + chain) == [after.heap[node].value] + Values(before.heap, chain)
  {
    var same := after.(top := before.top);
    assert IsChain(same, chain);
    PushedChain(same, after, chain, node);
    assert Values(same.heap, chain) == Values(before.heap, chain);
  }

  /** The retry loops of push and pop as one thread runs them when no other interferes. */
  class TreiberStack {
    var heap: map<Addr, Cell>
    var top: Option<Addr>
    ghost var chain: seq<Addr>

    ghost function Memory(): System
      reads this
    {
      System(heap, top, [], [], [], [])
    }

    ghost predicate Valid()
      reads this
    {
      IsChain(Memory(), chain)
    }

    ghost function Contents(): seq<nat>
      reads this
      requires Valid()
    {
      Values(heap, chain)
    }

    constructor ()
      ensures Valid() && Contents() == []
    {
      heap, top, chain := map[], None, [];
    }

    method CompareExchange(seen: Option<Addr>, next: Option<Addr>) returns (ok: bool)
      modifies this`top
      ensures ok <==> old(top) == seen
      ensures top == if ok then next else old(top)
    {
      ok := top == seen;
      if ok {
        top := next;
      }
    }

    method Push(v: nat, unused: Addr)
      requires Valid() && unused !in heap
      modifies this
      ensures Valid() && Perform(old(Contents()), Op.Push(v)) == Some(Contents())
      ensures heap.Keys == old(heap.Keys) + {unused}
    {
      heap := heap[unused := Cell(v, None)];
      ghost var before := old(Memory());
      var done := false;
      while !done
        invariant unused in heap && heap.Keys == old(heap.Keys) + {unused} && chain == old(chain)
        invariant forall a :: a in old(heap) ==> heap[a] == old(heap)[a]
        invariant heap[unused].value == v
        invariant if done then top == Some(unused) && heap[unused].next == old(top) else top == old(top)
        decreases !done
      {
        var seen := top;
        heap := heap[unused := Cell(heap[unused].value, seen)];
        done := CompareExchange(seen, Some(unused));
      }
      ChainAfterPush(before, Memory(), chain, unused);
      chain := [unused] + chain;
    }

    method Pop() returns (r: Option<nat>)
      requires Valid()
      modifies this
      ensures Valid() && Perform(old(Contents()), Op.Pop(r)) == Some(Contents())
      ensures heap == old(heap)
    {
      ghost var before := Memory();
      r := None;
      var done := false;
      while !done
        invariant heap == before.heap && chain == old(chain)
        invariant done ==> chain != [] && r == Some(heap[chain[0]].value) && top == heap[chain[0]].next
        invariant !done ==> top == before.top
        decreases !done
      {
        var seen := top;
        if seen.None? {
          return None;
        }
        assert chain[0] == seen.value;
        var next := heap[seen.value].next;
        done := CompareExchange(seen, next);
        r := Some(heap[seen.value].value);
      }
      PoppedChain(before, Memory(), chain);
      chain := chain[1..];
    }
  }
}
