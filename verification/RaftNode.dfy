/**
  One Raft node: its state, what each handler and each half of the election and
  heartbeat rounds does, and the imperative server proved against them.

  An index past the end of the log makes the program panic. Every operation that
  applies commands says so by returning None.
  */
module RaftNode {
  import opened Options
  import opened Text

  type Node = nat

  datatype Role = Follower | Candidate | Leader

  datatype Entry = Entry(term: nat, cmd: string)

  // What the state file holds.
  datatype Durable = Durable(term: nat, votedFor: Option<Node>, commitIndex: nat, log: seq<Entry>)

  datatype NodeState = NodeState(
    term: nat,
    role: Role,
    votedFor: Option<Node>,
    log: seq<Entry>,
    commitIndex: nat,
    applied: nat,
    kv: map<string, string>,
    disk: Durable)

  function DurablePart(s: NodeState): Durable {
    Durable(s.term, s.votedFor, s.commitIndex, s.log)
  }

  function Persist(s: NodeState): NodeState {
    s.(disk := DurablePart(s))
  }

  function LastTerm(log: seq<Entry>): nat {
    if log == [] then 0 else log[|log| - 1].term
  }

  function Majority(n: nat): nat {
    n / 2 + 1
  }

  function Max(a: nat, b: nat): nat {
    if a >= b then a else b
  }

  function Min(a: nat, b: nat): nat {
    if a <= b then a else b
  }

  // --------------------------------------------------------- the state machine

  function Execute(kv: map<string, string>, cmd: string): map<string, string> {
    var words := Words(cmd);
    if |words| >= 2 && words[0] == "set" then kv[words[1] := Join(words[2..], " ")]
    else if |words| == 2 && words[0] == "remove" then kv - {words[1]}
    else kv
  }

  /** The store after the commands of a whole log, from an empty store. */
  function Replay(log: seq<Entry>): map<string, string> {
    if log == [] then map[] else Execute(Replay(log[..|log| - 1]), log[|log| - 1].cmd)
  }

  /** `apply`: run the committed commands not yet run; None when one of them is not in the log. */
  function Apply(s: NodeState): (r: Option<NodeState>)
    decreases s.commitIndex - s.applied
  {
    if s.applied >= s.commitIndex then Some(s)
    else if s.applied >= |s.log| then None
    else Apply(s.(kv := Execute(s.kv, s.log[s.applied].cmd), applied := s.applied + 1))
  }

  /** A store that replays the applied prefix still does after `apply`, which never fails within the log. */
  lemma {:induction false} ApplyReplays(s: NodeState)
    requires s.applied <= s.commitIndex <= |s.log| && s.kv == Replay(s.log[..s.applied])
    ensures Apply(s) == Some(s.(applied := s.commitIndex, kv := Replay(s.log[..s.commitIndex])))
    decreases s.commitIndex - s.applied
  {
    if s.applied < s.commitIndex {
      var next := s.(kv := Execute(s.kv, s.log[s.applied].cmd), applied := s.applied + 1);
      assert s.log[..s.applied + 1][..s.applied] == s.log[..s.applied];
      ApplyReplays(next);
    }
  }

  /** It fails exactly when it has something to do and the commit index is past the log. */
  lemma {:induction false} ApplyFailsExactly(s: NodeState)
    ensures Apply(s).None? <==> s.applied < s.commitIndex && |s.log| < s.commitIndex
    decreases s.commitIndex - s.applied
  {
    if s.applied < s.commitIndex && s.applied < |s.log| {
      ApplyFailsExactly(s.(kv := Execute(s.kv, s.log[s.applied].cmd), applied := s.applied + 1));
    }
  }

  /** Start-up from the state file, or from nothing: replay what was committed. */
  function Reload(d: Durable): Option<NodeState> {
    Apply(NodeState(d.term, Follower, d.votedFor, d.log, d.commitIndex, 0, map[], d))
  }

  const NO_FILE := Durable(0, None, 0, [])

  // ----------------------------------------------------------------- elections

  /** Become a candidate of a new term. */
  function StartCampaign(me: Node, s: NodeState): NodeState {
    Persist(s.(term := s.term + 1, role := Candidate, votedFor := Some(me)))
  }

  function StepDown(s: NodeState, term: nat): NodeState {
    Persist(s.(term := term, role := Follower, votedFor := None))
  }

  predicate LogOk(s: NodeState, lastIndex: nat, lastTerm: nat) {
    lastTerm > LastTerm(s.log) || (lastTerm == LastTerm(s.log) && lastIndex >= |s.log|)
  }

  /** The `requestvote` handler: the new state, and the reply (term, granted). */
  function OnRequestVote(s: NodeState, term: nat, candidate: Node, lastIndex: nat, lastTerm: nat)
    : (NodeState, nat, bool)
  {
    var seen := if term > s.term then s.(term := term, role := Follower, votedFor := None) else s;
    var granted := term == seen.term && (seen.votedFor.None? || seen.votedFor == Some(candidate))
                   && LogOk(seen, lastIndex, lastTerm);
    var voted := if granted then seen.(votedFor := Some(candidate)) else seen;
    (Persist(voted), voted.term, granted)
  }

  /** Peers that granted their vote in `term`. */
  function Supporters(term: nat, replies: map<Node, (nat, bool)>): set<Node> {
    set p | p in replies && replies[p] == (term, true)
  }

  /** The highest term among the replies and `term` itself. */
  ghost predicate IsHighest(term: nat, terms: map<Node, nat>, top: nat) {
    && top >= term
    && (forall p :: p in terms ==> terms[p] <= top)
    && (top == term || exists p :: p in terms && terms[p] == top)
  }

  function VoteTerms(replies: map<Node, (nat, bool)>): map<Node, nat> {
    map p | p in replies :: replies[p].0
  }

  /** The end of an election round begun in `term`. */
  ghost predicate FinishCampaign(n: nat, s: NodeState, term: nat, replies: map<Node, (nat, bool)>, s': NodeState) {
    exists top: nat :: IsHighest(term, VoteTerms(replies), top) &&
      if top > s.term then s' == StepDown(s, top)
      else if s.role == Candidate && s.term == term && 1 + |Supporters(term, replies)| >= Majority(n)
      then s' == s.(role := Leader)
      else s' == s
  }

  // --------------------------------------------------------------- replication

  /** The `append` handler: adopt the leader's log whole; the reply is (term, log length). */
  function OnAppend(s: NodeState, term: nat, commit: nat, entries: seq<Entry>): Option<(NodeState, nat, nat)> {
    if term < s.term then Some((s, s.term, |s.log|)) else
    var adopted := s.(votedFor := if term > s.term then None else s.votedFor,
                      term := term, role := Follower, log := entries,
                      commitIndex := Max(s.commitIndex, Min(commit, |entries|)));
    match Apply(adopted)
    case None => None
    case Some(done) => Some((Persist(done), done.term, |done.log|))
  }

  function PeerHolders(term: nat, acks: map<Node, (nat, nat)>, x: nat): set<Node> {
    set p | p in acks && acks[p].0 == term && acks[p].1 >= x
  }

  /**
    Members known to hold at least x entries in this round: the leader itself and those that acknowledged in its term.
    */
  function Holders(me: Node, term: nat, selfLen: nat, acks: map<Node, (nat, nat)>, x: nat): set<Node> {
    PeerHolders(term, acks, x) + if selfLen >= x then {me} else {}
  }

  /** The longest length a majority holds; 0 when less than a majority answered. */
  ghost predicate IsAgreed(n: nat, me: Node, term: nat, selfLen: nat, acks: map<Node, (nat, nat)>, agreed: nat) {
    if |Holders(me, term, selfLen, acks, 0)| < Majority(n) then agreed == 0
    else |Holders(me, term, selfLen, acks, agreed)| >= Majority(n) > |Holders(me, term, selfLen, acks, agreed + 1)|
  }

  function AckTerms(acks: map<Node, (nat, nat)>): map<Node, nat> {
    map p | p in acks :: acks[p].0
  }

  /** The commit rule: only past the commit index, only up to an entry of the leader's own term. */
  function Advance(s: NodeState, term: nat, agreed: nat): NodeState {
    if agreed > s.commitIndex && 0 < agreed <= |s.log| && s.log[agreed - 1].term == term
    then s.(commitIndex := agreed) else s
  }

  function SettleBeat(s: NodeState, term: nat, top: nat, agreed: nat): Option<NodeState> {
    if top > s.term then Some(StepDown(s, top))
    else if s.role != Leader || s.term != term then Some(s)
    else Apply(Persist(Advance(s, term, agreed)))
  }

  /** The end of a heartbeat round begun in `term` with `selfLen` entries. */
  ghost predicate FinishBeat(n: nat, me: Node, s: NodeState, term: nat, selfLen: nat, acks: map<Node, (nat, nat)>,
                             s': Option<NodeState>)
  {
    exists top: nat, agreed: nat ::
      && IsHighest(term, AckTerms(acks), top)
      && IsAgreed(n, me, term, selfLen, acks, agreed)
      && s' == SettleBeat(s, term, top, agreed)
  }

  // ------------------------------------------------------------------- clients

  predicate Accepted(line: string) {
    && Words(line) != [] && Words(line)[0] in {"set", "remove"}
    && '|' !in line && '~' !in line && 0x1f as char !in line
  }

  /** A `set` or `remove` line. */
  function OnCommand(s: NodeState, line: string): NodeState {
    if Accepted(line) && s.role == Leader then Persist(s.(log := s.log + [Entry(s.term, Trim(line))])) else s
  }

  /** A `get` line. */
  function OnGet(s: NodeState): Option<NodeState> {
    if s.role == Leader then Apply(s) else Some(s)
  }

  /** What a leader answers to a `get` from its store. */
  function Reply(s: NodeState, key: string): string {
    if key in s.kv then s.kv[key] else "(nil)"
  }

  // ----------------------------------------------------- the loops and the server

  function CountAtLeast(lengths: seq<nat>, x: nat): nat {
    if lengths == [] then 0
    else CountAtLeast(lengths[..|lengths| - 1], x) + if lengths[|lengths| - 1] >= x then 1 else 0
  }

  lemma {:induction false} CountConcat(a: seq<nat>, b: seq<nat>, x: nat)
    ensures CountAtLeast(a + b, x) == CountAtLeast(a, x) + CountAtLeast(b, x)
  {
    if b == [] {
      assert a + b == a;
    } else {
      assert (a + b)[..|a + b| - 1] == a + b[..|b| - 1];
      CountConcat(a, b[..|b| - 1], x);
    }
  }

  ghost predicate Descending(a: seq<nat>) {
    forall i, j :: 0 <= i < j < |a| ==> a[i] >= a[j]
  }

  // In a descending sequence the count of elements at least x is where they stop.
  lemma {:induction false} CountDescending(a: seq<nat>, x: nat, k: nat)
    requires Descending(a) && k <= |a|
    ensures (k > 0 ==> a[k - 1] >= x) ==> CountAtLeast(a, x) >= k
    ensures (k < |a| ==> a[k] < x) ==> CountAtLeast(a, x) <= k
  {
    if a != [] {
      var front := a[..|a| - 1];
      CountDescending(front, x, if k < |a| then k else k - 1);
    }
  }

  ghost predicate SameCounts(a: seq<nat>, b: seq<nat>) {
    forall x: nat :: CountAtLeast(a, x) == CountAtLeast(b, x)
  }

  lemma {:induction false} InsertCounts(front: seq<nat>, back: seq<nat>, item: nat, whole: seq<nat>)
    requires SameCounts(front + back, whole)
    ensures SameCounts(front + [item] + back, whole + [item])
  {
    forall x: nat
      ensures CountAtLeast(front + [item] + back, x) == CountAtLeast(whole + [item], x)
    {
      CountConcat(front, back, x);
      CountConcat(front, [item], x);
      CountConcat(front + [item], back, x);
      CountConcat(whole, [item], x);
    }
  }

  method InsertDescending(sorted: seq<nat>, item: nat) returns (k: nat)
    requires Descending(sorted)
    ensures k <= |sorted| && Descending(sorted[..k] + [item] + sorted[k..])
  {
    k := |sorted|;
    while k > 0 && sorted[k - 1] < item
      invariant 0 <= k <= |sorted|
      invariant forall j :: k <= j < |sorted| ==> sorted[j] < item
    {
      k := k - 1;
    }
  }

  /** `sort_unstable_by`, descending. */
  method SortDescending(lengths: seq<nat>) returns (sorted: seq<nat>)
    ensures Descending(sorted) && |sorted| == |lengths| && SameCounts(sorted, lengths)
  {
    sorted := [];
    for i := 0 to |lengths|
      invariant Descending(sorted) && |sorted| == i && SameCounts(sorted, lengths[..i])
    {
      var k := InsertDescending(sorted, lengths[i]);
      assert sorted == sorted[..k] + sorted[k..];
      InsertCounts(sorted[..k], sorted[k..], lengths[i], lengths[..i]);
      sorted := sorted[..k] + [lengths[i]] + sorted[k..];
      assert lengths[..i + 1] == lengths[..i] + [lengths[i]];
    }
    assert lengths[..|lengths|] == lengths;
  }

  // The lengths counted so far are those of the peers looked at so far.
  ghost predicate Counted(lengths: seq<nat>, me: Node, term: nat, selfLen: nat, acks: map<Node, (nat, nat)>) {
    forall x: nat :: CountAtLeast(lengths, x) == |Holders(me, term, selfLen, acks, x)|
  }

  lemma PeerHoldersStep(term: nat, acks: map<Node, (nat, nat)>, p: Node, ack: (nat, nat), x: nat)
    requires p !in acks
    ensures PeerHolders(term, acks[p := ack], x) ==
            if ack.0 == term && ack.1 >= x then PeerHolders(term, acks, x) + {p} else PeerHolders(term, acks, x)
  {
  }

  lemma HoldersStep(me: Node, term: nat, selfLen: nat, acks: map<Node, (nat, nat)>, p: Node, ack: (nat, nat), x: nat)
    requires p !in acks && p != me
    ensures |Holders(me, term, selfLen, acks[p := ack], x)| ==
            |Holders(me, term, selfLen, acks, x)| + if ack.0 == term && ack.1 >= x then 1 else 0
  {
    PeerHoldersStep(term, acks, p, ack, x);
    var was, now := Holders(me, term, selfLen, acks, x), Holders(me, term, selfLen, acks[p := ack], x);
    assert now == if ack.0 == term && ack.1 >= x then was + {p} else was;
    assert p !in was;
  }

  lemma {:induction false} CountedStep(lengths: seq<nat>, me: Node, term: nat, selfLen: nat,
                                       acks: map<Node, (nat, nat)>, p: Node, ack: (nat, nat))
    requires Counted(lengths, me, term, selfLen, acks) && p !in acks && p != me
    ensures Counted(if ack.0 == term then lengths + [ack.1] else lengths, me, term, selfLen, acks[p := ack])
  {
    var next := if ack.0 == term then lengths + [ack.1] else lengths;
    forall x: nat
      ensures CountAtLeast(next, x) == |Holders(me, term, selfLen, acks[p := ack], x)|
    {
      CountConcat(lengths, [ack.1], x);
      HoldersStep(me, term, selfLen, acks, p, ack, x);
    }
  }

  method CollectLengths(me: Node, term: nat, selfLen: nat, acks: map<Node, (nat, nat)>) returns (lengths: seq<nat>)
    requires me !in acks
    ensures Counted(lengths, me, term, selfLen, acks)
  {
    lengths := [selfLen];
    var rest := acks.Keys;
    ghost var done: map<Node, (nat, nat)> := map[];
    while rest != {}
      invariant rest <= acks.Keys && done.Keys == acks.Keys - rest
      invariant forall p :: p in done ==> done[p] == acks[p]
      invariant Counted(lengths, me, term, selfLen, done)
    {
      var p :| p in rest;
      rest := rest - {p};
      CountedStep(lengths, me, term, selfLen, done, p, acks[p]);
      done := done[p := acks[p]];
      if acks[p].0 == term {
        lengths := lengths + [acks[p].1];
      }
    }
    assert done == acks;
  }

  lemma {:induction false} CountsOfKth(sorted: seq<nat>, k: nat, kth: nat)
    requires Descending(sorted) && 0 < k <= |sorted| && kth == sorted[k - 1]
    ensures CountAtLeast(sorted, kth) >= k
    ensures CountAtLeast(sorted, kth + 1) < k
  {
    CountDescending(sorted, kth, k);
    CountDescending(sorted, kth + 1, k - 1);
  }

  lemma {:induction false} SortedCount(me: Node, term: nat, selfLen: nat, acks: map<Node, (nat, nat)>,
                                       lengths: seq<nat>, sorted: seq<nat>, x: nat)
    requires Counted(lengths, me, term, selfLen, acks) && SameCounts(sorted, lengths)
    ensures CountAtLeast(sorted, x) == |Holders(me, term, selfLen, acks, x)|
  {
    assert CountAtLeast(sorted, x) == CountAtLeast(lengths, x);
  }

  lemma {:induction false} MedianCounts(sorted: seq<nat>, k: nat, agreed: nat)
    requires Descending(sorted) && k > 0 && agreed == if |sorted| >= k then sorted[k - 1] else 0
    ensures CountAtLeast(sorted, 0) == |sorted|
    ensures |sorted| >= k ==> CountAtLeast(sorted, agreed) >= k > CountAtLeast(sorted, agreed + 1)
  {
    CountDescending(sorted, 0, |sorted|);
    if |sorted| >= k {
      CountsOfKth(sorted, k, agreed);
    }
  }

  /** The majority-th largest length is the longest one a majority holds. */
  lemma {:induction false} MedianIsAgreed(n: nat, me: Node, term: nat, selfLen: nat, acks: map<Node, (nat, nat)>,
                                          sorted: seq<nat>, agreed: nat)
    requires Descending(sorted)
    requires agreed == if |sorted| >= Majority(n) then sorted[Majority(n) - 1] else 0
    requires CountAtLeast(sorted, 0) == |Holders(me, term, selfLen, acks, 0)|
    requires CountAtLeast(sorted, agreed) == |Holders(me, term, selfLen, acks, agreed)|
    requires CountAtLeast(sorted, agreed + 1) == |Holders(me, term, selfLen, acks, agreed + 1)|
    ensures IsAgreed(n, me, term, selfLen, acks, agreed)
  {
    MedianCounts(sorted, Majority(n), agreed);
  }

  method AgreedLength(n: nat, me: Node, term: nat, selfLen: nat, acks: map<Node, (nat, nat)>) returns (agreed: nat)
    requires me !in acks
    ensures IsAgreed(n, me, term, selfLen, acks, agreed)
  {
    var lengths := CollectLengths(me, term, selfLen, acks);
    var sorted := SortDescending(lengths);
    agreed := if |sorted| >= Majority(n) then sorted[Majority(n) - 1] else 0;
    SortedCount(me, term, selfLen, acks, lengths, sorted, 0);
    SortedCount(me, term, selfLen, acks, lengths, sorted, agreed);
    SortedCount(me, term, selfLen, acks, lengths, sorted, agreed + 1);
    MedianIsAgreed(n, me, term, selfLen, acks, sorted, agreed);
  }

  method HighestTerm(term: nat, terms: map<Node, nat>) returns (top: nat)
    ensures IsHighest(term, terms, top)
  {
    top := term;
    var rest := terms.Keys;
    while rest != {}
      invariant rest <= terms.Keys && top >= term
      invariant forall p :: p in terms && p !in rest ==> terms[p] <= top
      invariant top == term || exists p :: p in terms && terms[p] == top
    {
      var p :| p in rest;
      rest := rest - {p};
      if terms[p] > top {
        top := terms[p];
      }
    }
  }

  class Server {
    const n: nat
    const me: Node
    var term: nat
    var role: Role
    var votedFor: Option<Node>
    var log: seq<Entry>
    var commitIndex: nat
    var applied: nat
    var kv: map<string, string>
    var disk: Durable

    ghost function State(): NodeState
      reads this
    {
      NodeState(term, role, votedFor, log, commitIndex, applied, kv, disk)
    }

    // The node as main sets it up, before it replays what was committed.
    constructor (n: nat, me: Node, file: Option<Durable>)
      ensures this.n == n && this.me == me
      ensures var d := if file.Some? then file.value else NO_FILE;
              State() == NodeState(d.term, Follower, d.votedFor, d.log, d.commitIndex, 0, map[], d)
    {
      var d := if file.Some? then file.value else NO_FILE;
      this.n, this.me := n, me;
      term, role, votedFor, log := d.term, Follower, d.votedFor, d.log;
      commitIndex, applied, kv, disk := d.commitIndex, 0, map[], d;
    }

    method PersistState()
      modifies this`disk
      ensures State() == Persist(old(State()))
    {
      disk := Durable(term, votedFor, commitIndex, log);
    }

    method ApplyCommitted() returns (ok: bool)
      modifies this`kv, this`applied
      ensures ok == Apply(old(State())).Some?
      ensures ok ==> State() == Apply(old(State())).value
    {
      while applied < commitIndex
        invariant Apply(State()) == Apply(old(State()))
        decreases commitIndex - applied
      {
        if applied >= |log| {
          return false;
        }
        kv := Execute(kv, log[applied].cmd);
        applied := applied + 1;
      }
      ok := true;
    }

    method Campaign()
      modifies this
      ensures State() == StartCampaign(me, old(State()))
    {
      term := term + 1;
      role := Candidate;
      votedFor := Some(me);
      PersistState();
    }

    method EndCampaign(roundTerm: nat, replies: map<Node, (nat, bool)>)
      modifies this
      ensures FinishCampaign(n, old(State()), roundTerm, replies, State())
    {
      var top := HighestTerm(roundTerm, VoteTerms(replies));
      var votes := 1 + |Supporters(roundTerm, replies)|;
      if top > term {
        term := top;
        role := Follower;
        votedFor := None;
        PersistState();
      } else if role == Candidate && term == roundTerm && votes >= Majority(n) {
        role := Leader;
      }
    }

    method RequestVote(candTerm: nat, candidate: Node, lastIndex: nat, lastTerm: nat)
      returns (myTerm: nat, granted: bool)
      modifies this
      ensures (State(), myTerm, granted) == OnRequestVote(old(State()), candTerm, candidate, lastIndex, lastTerm)
    {
      if candTerm > term {
        term := candTerm;
        role := Follower;
        votedFor := None;
      }
      var logOk := lastTerm > LastTerm(log) || (lastTerm == LastTerm(log) && lastIndex >= |log|);
      granted := candTerm == term && (votedFor.None? || votedFor == Some(candidate)) && logOk;
      if granted {
        votedFor := Some(candidate);
      }
      PersistState();
      myTerm := term;
    }

    method Append(aeTerm: nat, leaderCommit: nat, entries: seq<Entry>) returns (ok: bool, myTerm: nat, myLen: nat)
      modifies this
      ensures ok == OnAppend(old(State()), aeTerm, leaderCommit, entries).Some?
      ensures ok ==> (State(), myTerm, myLen) == OnAppend(old(State()), aeTerm, leaderCommit, entries).value
    {
      if aeTerm >= term {
        if aeTerm > term {
          votedFor := None;
        }
        term := aeTerm;
        role := Follower;
        log := entries;
        commitIndex := Max(commitIndex, Min(leaderCommit, |log|));
        ok := ApplyCommitted();
        if !ok {
          return false, 0, 0;
        }
        PersistState();
      }
      ok, myTerm, myLen := true, term, |log|;
    }

    method Settle(roundTerm: nat, top: nat, agreed: nat) returns (ok: bool)
      modifies this
      ensures ok == SettleBeat(old(State()), roundTerm, top, agreed).Some?
      ensures ok ==> State() == SettleBeat(old(State()), roundTerm, top, agreed).value
    {
      ok := true;
      if top > term {
        term := top;
        role := Follower;
        votedFor := None;
        PersistState();
        return;
      }
      if role != Leader || term != roundTerm {
        return;
      }
      if agreed > commitIndex && agreed > 0 && agreed <= |log| && log[agreed - 1].term == roundTerm {
        commitIndex := agreed;
      }
      PersistState();
      ok := ApplyCommitted();
    }

    method EndBeat(roundTerm: nat, selfLen: nat, acks: map<Node, (nat, nat)>) returns (ok: bool)
      requires me !in acks
      modifies this
      ensures FinishBeat(n, me, old(State()), roundTerm, selfLen, acks, if ok then Some(State()) else None)
    {
      var top := HighestTerm(roundTerm, AckTerms(acks));
      var agreed := AgreedLength(n, me, roundTerm, selfLen, acks);
      ok := Settle(roundTerm, top, agreed);
    }

    method Command(line: string)
      modifies this
      ensures State() == OnCommand(old(State()), line)
    {
      var words := Words(line);
      if words == [] || words[0] !in {"set", "remove"} {
        return;
      }
      if '|' in line || '~' in line || 0x1f as char in line {
        return;
      }
      if role == Leader {
        log := log + [Entry(term, Trim(line))];
        PersistState();
      }
    }

    method Get(key: string) returns (ok: bool, value: Option<string>)
      modifies this
      ensures ok == OnGet(old(State())).Some?
      ensures ok ==> State() == OnGet(old(State())).value
      ensures ok && old(role) == Leader ==> value == Some(Reply(State(), key))
    {
      ok, value := true, None;
      if role == Leader {
        ok := ApplyCommitted();
        value := Some(if key in kv then kv[key] else "(nil)");
      }
    }
  }
}
