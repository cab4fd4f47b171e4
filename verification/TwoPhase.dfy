/**
  One coordinator session of two-phase commit. Requests may be lost, or handled late; none
  is handled twice, as the coordinator never sends one again. A lost reply or a failed call
  is a vote heard as not YES. Participants may crash at any time and reload their file; a
  crash before the file is written is a lost request and a crash.
  */
module TwoPhase {
  import opened Options
  import opened TwoPhaseNode

  type Pid = nat
  type Txid = nat

  datatype Phase =
    | Idle
    | Asking(next: Pid, waiting: bool, allYes: bool, crash: bool)
    | Telling(commit: bool, next: Pid)

  datatype Part = Part(memory: Account, disk: Account)

  datatype System = System(
    parts: seq<Part>,
    wire: set<(Pid, Request)>,
    txid: nat,
    phase: Phase,
    deltas: map<Txid, seq<int>>,      // history: what each transaction asked for
    decided: map<Txid, bool>,         // history: the verdicts
    votes: set<(Pid, Txid)>,          // history: the YES votes given, heard or not
    applied: set<(Pid, Txid)>,        // history: commits that took effect
    dropped: set<(Pid, Txid)>)        // history: promises dropped on an abort

  datatype Step =
    | Start(deltas: seq<int>, crash: bool)
    | Ask
    | Hear(yes: bool)
    | Decide
    | Tell
    | Finish
    | Deliver(p: Pid, request: Request)
    | Lose(p: Pid, request: Request)
    | Crash(p: Pid)

  ghost predicate Init(s: System) {
    && (forall p :: 0 <= p < |s.parts| ==> s.parts[p] == Part(Load(None), Load(None)))
    && s.wire == {} && s.txid == 0 && s.phase == Idle && s.deltas == map[] && s.decided == map[]
    && s.votes == {} && s.applied == {} && s.dropped == {}
  }

  function DeltaOf(s: System, t: Txid, p: Pid): int {
    if t in s.deltas then Delta(s.deltas[t], p) else 0
  }

  /** The coordinator's steps. */
  ghost predicate Coordinates(s: System, s': System, step: Step) {
    var n := |s.parts|;
    match step
    case Start(deltas, crash) =>
      s.phase.Idle? && s' == s.(txid := s.txid + 1, deltas := s.deltas[s.txid + 1 := deltas],
                                phase := Asking(0, false, true, crash))
    case Ask =>
      && s.phase.Asking? && s.phase.next < n && !s.phase.waiting
      && s' == s.(wire := s.wire + {(s.phase.next, Prepare(s.txid, DeltaOf(s, s.txid, s.phase.next)))},
                  phase := s.phase.(waiting := true))
    case Hear(yes) =>
      && s.phase.Asking? && s.phase.next < n && s.phase.waiting
      && (yes ==> (s.phase.next, s.txid) in s.votes)
      && s' == s.(phase := s.phase.(next := s.phase.next + 1, waiting := false, allYes := s.phase.allYes && yes))
    case Decide =>
      && s.phase.Asking? && s.phase.next == n
      && s' == if s.phase.crash then s.(phase := Idle)
               else s.(phase := Telling(s.phase.allYes, 0), decided := s.decided[s.txid := s.phase.allYes])
    case Tell =>
      && s.phase.Telling? && s.phase.next < n
      && s' == s.(wire := s.wire + {(s.phase.next, if s.phase.commit then Commit(s.txid) else Abort(s.txid))},
                  phase := Telling(s.phase.commit, s.phase.next + 1))
    case Finish => s.phase.Telling? && s.phase.next == n && s' == s.(phase := Idle)
    case _ => false
  }

  /** A participant handles a request: the new state is on disk before the reply. */
  function Delivered(s: System, p: Pid, request: Request): System
    requires p < |s.parts|
  {
    var before := s.parts[p].memory;
    var after := Handle(before, request);
    var done := (p, request.txid);
    s.(parts := s.parts[p := Part(after, if after == before then s.parts[p].disk else after)],
       wire := s.wire - {(p, request)},
       votes := if request.Prepare? && CanPromise(before, request.delta) then s.votes + {done} else s.votes,
       applied := if request.Commit? && Awaits(before, request.txid) then s.applied + {done} else s.applied,
       dropped := if request.Abort? && Awaits(before, request.txid) then s.dropped + {done} else s.dropped)
  }

  ghost predicate NextStep(s: System, s': System, step: Step) {
    match step
    case Deliver(p, request) => p < |s.parts| && (p, request) in s.wire && s' == Delivered(s, p, request)
    case Lose(p, request) => s' == s.(wire := s.wire - {(p, request)})
    case Crash(p) =>
      p < |s.parts| && s' == s.(parts := s.parts[p := Part(s.parts[p].disk, s.parts[p].disk)])
    case _ => Coordinates(s, s', step)
  }

  ghost predicate Next(s: System, s': System) {
    exists step :: NextStep(s, s', step)
  }

  ghost predicate IsRun(run: seq<System>) {
    && |run| > 0
    && Init(run[0])
    && forall i :: 0 <= i < |run| - 1 ==> Next(run[i], run[i + 1])
  }

  // ------------------------------------------------------------------- invariant

  ghost predicate Promised(s: System, p: Pid, t: Txid)
    requires p < |s.parts|
  {
    Awaits(s.parts[p].memory, t)
  }

  /** No PREPARE of transaction t has reached participant p or is on its way. */
  ghost predicate Untouched(s: System, p: Pid, t: Txid)
    requires p < |s.parts|
  {
    && (forall d :: (p, Prepare(t, d)) !in s.wire)
    && (p, t) !in s.votes
  }

  ghost predicate CoordinatorInv(s: System) {
    && (forall t :: t in s.deltas <==> 1 <= t <= s.txid)
    && (forall t :: t in s.decided ==> 1 <= t <= s.txid)
    && (forall t, p: Pid :: t in s.decided && s.decided[t] && p < |s.parts| ==> (p, t) in s.votes)
    && match s.phase
       case Idle => true
       case Asking(next, waiting, allYes, _) =>
         && next <= |s.parts| && 1 <= s.txid && s.txid !in s.decided
         && (allYes ==> forall p: Pid :: p < next ==> (p, s.txid) in s.votes)
         && (forall p: Pid :: next <= p < |s.parts| && !(waiting && p == next) ==> Untouched(s, p, s.txid))
       case Telling(commit, _) => s.txid in s.decided && s.decided[s.txid] == commit
  }

  ghost predicate RequestOk(s: System, p: Pid, request: Request) {
    && 1 <= request.txid <= s.txid
    && match request
       case Prepare(t, d) => d == DeltaOf(s, t, p) && (p, t) !in s.votes
       case Commit(t) => t in s.decided && s.decided[t]
       case Abort(t) => t in s.decided && !s.decided[t]
  }

  ghost predicate WireInv(s: System) {
    forall p, request :: (p, request) in s.wire ==> RequestOk(s, p, request)
  }

  /** A vote is still a promise, or was applied, or was dropped: one of the three. */
  ghost predicate VoteOk(s: System, p: Pid, t: Txid)
    requires p < |s.parts|
  {
    && ((p, t) in s.votes <==> Promised(s, p, t) || (p, t) in s.applied || (p, t) in s.dropped)
    && ((p, t) in s.votes ==> 1 <= t <= s.txid)
    && (Promised(s, p, t) ==> (p, t) !in s.applied && (p, t) !in s.dropped)
    && ((p, t) in s.applied ==> t in s.decided && s.decided[t])
    && ((p, t) in s.dropped ==> t in s.decided && !s.decided[t])
  }

  /** The deltas of the transactions up to t that took effect at p. */
  function AppliedUpTo(s: System, p: Pid, t: Txid): int {
    if t == 0 then 0 else AppliedUpTo(s, p, t - 1) + if (p, t) in s.applied then DeltaOf(s, t, p) else 0
  }

  ghost predicate AccountOk(s: System, p: Pid)
    requires p < |s.parts|
  {
    var account := s.parts[p].memory;
    && s.parts[p].disk == account
    && account.balance >= 0
    && account.balance == OPENING_BALANCE + AppliedUpTo(s, p, s.txid)
    && (account.prepared.Some? ==>
          && account.prepared.value.delta == DeltaOf(s, account.prepared.value.txid, p)
          && account.balance + account.prepared.value.delta >= 0)
  }

  ghost predicate Inv(s: System) {
    && CoordinatorInv(s)
    && WireInv(s)
    && (forall p: Pid, t: Txid :: p < |s.parts| ==> VoteOk(s, p, t))
    && (forall p: Pid :: p < |s.parts| ==> AccountOk(s, p))
  }

  // ------------------------------------------------------------------- every step

  lemma {:induction false} AppliedSame(s: System, s': System, p: Pid, t: Txid)
    requires forall u: Txid :: 1 <= u <= t ==>
               DeltaOf(s', u, p) == DeltaOf(s, u, p) && ((p, u) in s'.applied <==> (p, u) in s.applied)
    ensures AppliedUpTo(s', p, t) == AppliedUpTo(s, p, t)
  {
    if t > 0 {
      AppliedSame(s, s', p, t - 1);
    }
  }

  lemma {:induction false} AppliedOneMore(s: System, s': System, p: Pid, t: Txid, done: Txid)
    requires 1 <= done <= t && (p, done) !in s.applied && s'.applied == s.applied + {(p, done)} && s'.deltas == s.deltas
    ensures AppliedUpTo(s', p, t) == AppliedUpTo(s, p, t) + DeltaOf(s, done, p)
  {
    if t == done {
      AppliedSame(s, s', p, t - 1);
    } else {
      AppliedOneMore(s, s', p, t - 1, done);
    }
  }

  lemma CoordinatorKeepsWire(s: System, s': System, step: Step)
    requires CoordinatorInv(s) && WireInv(s) && Coordinates(s, s', step)
    ensures WireInv(s')
  {
    assert step.Ask? ==> Untouched(s, s.phase.next, s.txid);
    forall p, request | (p, request) in s'.wire
      ensures RequestOk(s', p, request)
    {
      assert (p, request) in s.wire ==> RequestOk(s, p, request);
    }
  }

  lemma CoordinatorKeepsPhase(s: System, s': System, step: Step)
    requires CoordinatorInv(s) && WireInv(s) && Coordinates(s, s', step) && !step.Start?
    ensures CoordinatorInv(s')
  {
    if s'.phase.Asking? {
      forall p: Pid | s'.phase.next <= p < |s.parts| && !(s'.phase.waiting && p == s'.phase.next)
        ensures Untouched(s', p, s.txid)
      {
        assert Untouched(s, p, s.txid);
      }
    }
  }

  lemma {:induction false} CoordinatorKeeps(s: System, s': System, step: Step)
    requires Inv(s) && Coordinates(s, s', step) && !step.Start?
    ensures Inv(s')
  {
    CoordinatorKeepsWire(s, s', step);
    CoordinatorKeepsPhase(s, s', step);
    forall p: Pid, t: Txid | p < |s'.parts|
      ensures VoteOk(s', p, t)
    {
      assert VoteOk(s, p, t);
    }
    forall p: Pid | p < |s'.parts|
      ensures AccountOk(s', p)
    {
      assert AccountOk(s, p);
      AppliedSame(s, s', p, s.txid);
    }
  }

  lemma {:induction false} StartKeeps(s: System, s': System, step: Step)
    requires Inv(s) && Coordinates(s, s', step) && step.Start?
    ensures Inv(s')
  {
    CoordinatorKeepsWire(s, s', step);
    forall p: Pid, t: Txid | p < |s'.parts|
      ensures VoteOk(s', p, t)
    {
      assert VoteOk(s, p, t);
    }
    forall p: Pid | p < |s'.parts|
      ensures AccountOk(s', p) && Untouched(s', p, s'.txid)
    {
      assert AccountOk(s, p);
      assert VoteOk(s, p, s'.txid);
      AppliedSame(s, s', p, s.txid);
      if s.parts[p].memory.prepared.Some? {
        assert VoteOk(s, p, s.parts[p].memory.prepared.value.txid);
      }
      forall d
        ensures (p, Prepare(s'.txid, d)) !in s'.wire
      {
        assert (p, Prepare(s'.txid, d)) in s.wire ==> RequestOk(s, p, Prepare(s'.txid, d));
      }
    }
  }

  lemma {:induction false} LoseOrCrashKeeps(s: System, s': System, step: Step)
    requires Inv(s) && NextStep(s, s', step) && (step.Lose? || step.Crash?)
    ensures Inv(s')
  {
    assert step.Crash? ==> AccountOk(s, step.p);
    assert s'.parts == s.parts;
    if s.phase.Asking? {
      forall q: Pid | s.phase.next <= q < |s.parts| && !(s.phase.waiting && q == s.phase.next)
        ensures Untouched(s', q, s.txid)
      {
        assert Untouched(s, q, s.txid);
      }
    }
    forall p: Pid, t: Txid | p < |s'.parts|
      ensures VoteOk(s', p, t)
    {
      assert VoteOk(s, p, t);
    }
    forall p: Pid | p < |s'.parts|
      ensures AccountOk(s', p)
    {
      assert AccountOk(s, p);
      AppliedSame(s, s', p, s.txid);
    }
  }

  lemma {:induction false} DeliverKeepsVotes(s: System, p: Pid, request: Request, q: Pid, t: Txid)
    requires p < |s.parts| && q < |s.parts| && VoteOk(s, q, t) && VoteOk(s, p, request.txid) && RequestOk(s, p, request)
    ensures VoteOk(Delivered(s, p, request), q, t)
  {
  }

  lemma {:induction false} DeliverKeepsAccounts(s: System, p: Pid, request: Request, q: Pid)
    requires p < |s.parts| && q < |s.parts| && AccountOk(s, q) && AccountOk(s, p)
    requires VoteOk(s, p, request.txid) && RequestOk(s, p, request)
    ensures AccountOk(Delivered(s, p, request), q)
  {
    var s' := Delivered(s, p, request);
    if q == p && s'.applied != s.applied {
      AppliedOneMore(s, s', p, s.txid, request.txid);
    } else {
      AppliedSame(s, s', q, s.txid);
    }
  }

  lemma {:induction false} DeliverKeeps(s: System, p: Pid, request: Request)
    requires Inv(s) && p < |s.parts| && (p, request) in s.wire
    ensures Inv(Delivered(s, p, request))
  {
    var s' := Delivered(s, p, request);
    assert RequestOk(s, p, request);
    assert VoteOk(s, p, request.txid);
    forall q: Pid, t: Txid | q < |s'.parts|
      ensures VoteOk(s', q, t)
    {
      DeliverKeepsVotes(s, p, request, q, t);
    }
    forall q: Pid | q < |s'.parts|
      ensures AccountOk(s', q)
    {
      DeliverKeepsAccounts(s, p, request, q);
    }
    forall q, other | (q, other) in s'.wire
      ensures RequestOk(s', q, other)
    {
      assert RequestOk(s, q, other);
    }
    if s.phase.Asking? {
      forall q: Pid | s.phase.next <= q < |s.parts| && !(s.phase.waiting && q == s.phase.next)
        ensures Untouched(s', q, s.txid)
      {
        assert Untouched(s, q, s.txid);
      }
    }
  }

  lemma {:induction false} RunInv(run: seq<System>, i: nat)
    requires IsRun(run) && i < |run|
    ensures Inv(run[i])
  {
    if i > 0 {
      RunInv(run, i - 1);
      assert Next(run[i - 1], run[i - 1 + 1]);
      var step :| NextStep(run[i - 1], run[i], step);
      match step {
        case Deliver(p, request) => DeliverKeeps(run[i - 1], p, request);
        case Start(_, _) => StartKeeps(run[i - 1], run[i], step);
        case Lose(_, _) => LoseOrCrashKeeps(run[i - 1], run[i], step);
        case Crash(_) => LoseOrCrashKeeps(run[i - 1], run[i], step);
        case _ => CoordinatorKeeps(run[i - 1], run[i], step);
      }
    }
  }

  // ------------------------------------------------------------------- all runs

  /**
    Atomicity: a transaction applied anywhere was decided COMMIT, is dropped nowhere, and
    every other participant has applied it or still holds its promise of it.
    */
  lemma Atomicity(run: seq<System>, i: nat, p: Pid, t: Txid, q: Pid)
    requires IsRun(run) && i < |run| && p < |run[i].parts| && q < |run[i].parts| && (p, t) in run[i].applied
    ensures t in run[i].decided && run[i].decided[t]
    ensures (q, t) !in run[i].dropped
    ensures (q, t) in run[i].applied <==> !Promised(run[i], q, t)
  {
    RunInv(run, i);
    assert VoteOk(run[i], p, t) && VoteOk(run[i], q, t);
  }

  /** Balances are never negative, and what a crash reloads is what the participant held. */
  lemma BalancesHold(run: seq<System>, i: nat, p: Pid)
    requires IsRun(run) && i < |run| && p < |run[i].parts|
    ensures run[i].parts[p].memory.balance >= 0
    ensures run[i].parts[p].disk == run[i].parts[p].memory
  {
    RunInv(run, i);
    assert AccountOk(run[i], p);
  }

  ghost predicate Committed(s: System, t: Txid) {
    t in s.decided && s.decided[t]
  }

  /** What participant p is still owed: its delta in a committed transaction whose verdict has not reached it. */
  ghost function Undelivered(s: System, p: Pid): int
    requires p < |s.parts|
  {
    match s.parts[p].memory.prepared
    case None => 0
    case Some(promise) => if Committed(s, promise.txid) then promise.delta else 0
  }

  ghost function CommittedUpTo(s: System, p: Pid, t: Txid): int {
    if t == 0 then 0 else CommittedUpTo(s, p, t - 1) + if Committed(s, t) then DeltaOf(s, t, p) else 0
  }

  /** Committed deltas at p are the applied ones and, when p is in doubt about a committed transaction, that one. */
  lemma {:induction false} CommittedOrOwed(s: System, p: Pid, t: Txid)
    requires Inv(s) && p < |s.parts|
    ensures CommittedUpTo(s, p, t) == AppliedUpTo(s, p, t)
            + match s.parts[p].memory.prepared
              case None => 0
              case Some(promise) => if 1 <= promise.txid <= t && Committed(s, promise.txid) then promise.delta else 0
  {
    if t > 0 {
      CommittedOrOwed(s, p, t - 1);
      assert VoteOk(s, p, t) && AccountOk(s, p);
    }
  }

  /** What one participant holds and is owed is what it opened with and what was committed for it. */
  lemma LedgerBalances(run: seq<System>, i: nat, p: Pid)
    requires IsRun(run) && i < |run| && p < |run[i].parts|
    ensures run[i].parts[p].memory.balance + Undelivered(run[i], p)
         == OPENING_BALANCE + CommittedUpTo(run[i], p, run[i].txid)
  {
    RunInv(run, i);
    CommittedOrOwed(run[i], p, run[i].txid);
    assert AccountOk(run[i], p);
    if run[i].parts[p].memory.prepared.Some? {
      assert VoteOk(run[i], p, run[i].parts[p].memory.prepared.value.txid);
    }
  }

  ghost function HeldAndOwed(s: System, n: nat): int
    requires n <= |s.parts|
  {
    if n == 0 then 0
    else HeldAndOwed(s, n - 1) + s.parts[n - 1].memory.balance + Undelivered(s, n - 1)
  }

  /** The sum of a transaction's deltas over the first n participants. */
  ghost function NetOf(s: System, t: Txid, n: nat): int {
    if n == 0 then 0 else NetOf(s, t, n - 1) + DeltaOf(s, t, n - 1)
  }

  ghost function NetCommitted(s: System, t: Txid, n: nat): int {
    if t == 0 then 0 else NetCommitted(s, t - 1, n) + if Committed(s, t) then NetOf(s, t, n) else 0
  }

  lemma {:induction false} NetByParticipant(s: System, t: Txid, n: nat)
    requires n > 0
    ensures NetCommitted(s, t, n) == NetCommitted(s, t, n - 1) + CommittedUpTo(s, n - 1, t)
  {
    if t > 0 {
      NetByParticipant(s, t - 1, n);
    }
  }

  lemma {:induction false} NetOfNone(s: System, t: Txid)
    ensures NetCommitted(s, t, 0) == 0
  {
    if t > 0 {
      NetOfNone(s, t - 1);
    }
  }

  lemma {:induction false} ConservationUpTo(run: seq<System>, i: nat, n: nat)
    requires IsRun(run) && i < |run| && n <= |run[i].parts|
    ensures HeldAndOwed(run[i], n) == OPENING_BALANCE * n + NetCommitted(run[i], run[i].txid, n)
  {
    if n == 0 {
      NetOfNone(run[i], run[i].txid);
    } else {
      ConservationUpTo(run, i, n - 1);
      LedgerBalances(run, i, n - 1);
      NetByParticipant(run[i], run[i].txid, n);
    }
  }

  /**
    Conservation: whatever is lost and whoever crashes, the balances and the deltas still
    owed by committed transactions are the opening balances and all committed deltas.
    */
  lemma Conservation(run: seq<System>, i: nat)
    requires IsRun(run) && i < |run|
    ensures var n := |run[i].parts|;
            HeldAndOwed(run[i], n) == OPENING_BALANCE * n + NetCommitted(run[i], run[i].txid, n)
  {
    ConservationUpTo(run, i, |run[i].parts|);
  }

  /** Two-phase commit blocks: a promise stays, and refuses every later PREPARE, until its own verdict is handled. */
  lemma {:induction false} PromiseStays(run: seq<System>, i: nat, j: nat, p: Pid, t: Txid)
    requires IsRun(run) && i <= j < |run| && p < |run[i].parts| && Promised(run[i], p, t)
    ensures |run[j].parts| == |run[i].parts|
    ensures Promised(run[j], p, t) || (p, t) in run[j].applied || (p, t) in run[j].dropped
    ensures Promised(run[j], p, t) ==> forall d :: !CanPromise(run[j].parts[p].memory, d)
    decreases j - i
  {
    if i < j {
      PromiseStays(run, i, j - 1, p, t);
      RunInv(run, j - 1);
      assert AccountOk(run[j - 1], p);
      assert Next(run[j - 1], run[j - 1 + 1]);
    }
  }
}
