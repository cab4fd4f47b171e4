/** What holds of every run of the optimistic engine. */
module OccTheorems {
  import opened Options
  import opened Transactions
  import opened Occ
  import opened OccSystem

  ghost function Programs(commits: seq<Done>): seq<Program> {
    seq(|commits|, i requires 0 <= i < |commits| => commits[i].prog)
  }

  ghost function StatesUpTo(initial: State, commits: seq<Done>): seq<State> {
    seq(|commits| + 1, n requires 0 <= n <= |commits| => StateAt(Writes, initial, commits, n))
  }

  lemma CommittedOk(run: seq<System>, i: nat, b: nat)
    requires IsRun(run) && i < |run| && b < |run[i].commits|
    ensures CommitOk(run[i].initial, run[i].commits, b)
  {
    RunInv(run, i);
  }

  /**
    A committed transaction ran as if alone at its place in the commit order exactly when
    its re-reads of a key gave what the first read gave.
    */
  lemma AloneAtCommitExactly(run: seq<System>, i: nat, b: nat)
    requires IsRun(run) && i < |run| && b < |run[i].commits|
    ensures var d := run[i].commits[b];
            Sees(d.prog, d.results, StateAt(Writes, run[i].initial, run[i].commits, b)) <==>
              Repeatable(d.prog, d.results)
  {
    CommittedOk(run, i, b);
  }

  /**
    Serializability: when every committed transaction's re-reads repeated the first value,
    running the committed programs alone, one after the other in commit order, passes
    through states that end in the store's, and there is no other such run.
    */
  lemma Serializable(run: seq<System>, i: nat)
    requires IsRun(run) && i < |run|
    requires forall b: nat :: b < |run[i].commits| ==> Repeatable(run[i].commits[b].prog, run[i].commits[b].results)
    ensures var states := StatesUpTo(run[i].initial, run[i].commits);
            && states[0] == run[i].initial && states[|run[i].commits|] == StateOf(run[i].db)
            && SerialRun(states, Programs(run[i].commits))
            && forall others :: SerialRun(others, Programs(run[i].commits)) && others[0] == run[i].initial ==>
                 others[|run[i].commits|] == StateOf(run[i].db)
  {
    RunInv(run, i);
    var commits := run[i].commits;
    var states, progs := StatesUpTo(run[i].initial, commits), Programs(commits);
    forall b: nat | b < |progs|
      ensures RunsAlone(progs[b], states[b], NextState(states, b))
    {
      CommittedOk(run, i, b);
      assert RunsAloneBy(progs[b], commits[b].results, states[b], states[b + 1]);
    }
    forall others | SerialRun(others, progs) && others[0] == run[i].initial
      ensures others[|commits|] == StateOf(run[i].db)
    {
      SerialRunsAgree(others, states, progs, |commits|);
    }
  }

  /** A transaction that reads each key from the store at most once has no re-read to repeat. */
  lemma SerializableWhenReadOnce(run: seq<System>, i: nat)
    requires IsRun(run) && i < |run|
    requires forall b: nat :: b < |run[i].commits| ==> ReadsOnce(run[i].commits[b].prog, run[i].commits[b].results)
    ensures var states := StatesUpTo(run[i].initial, run[i].commits);
            && SerialRun(states, Programs(run[i].commits))
            && states[0] == run[i].initial && states[|run[i].commits|] == StateOf(run[i].db)
  {
    forall b: nat | b < |run[i].commits|
      ensures Repeatable(run[i].commits[b].prog, run[i].commits[b].results)
    {
      OnceIsRepeatable(run[i].commits[b].prog, run[i].commits[b].results);
    }
    Serializable(run, i);
  }

  // ------------------------------------------------------ the programs of the exhibits

  lemma DepositReadsOnce(key: Key, amount: int, results: seq<int>)
    ensures ReadsOnce(Deposit(key, amount), results)
  {
    assert forall i: nat :: i < |results| && StoreRead(Deposit(key, amount), results, i).Some? ==> i == 0;
  }

  lemma MoveReadsOnce(from: Key, to: Key, amount: int, results: seq<int>)
    requires from != to
    ensures ReadsOnce(Move(from, to, amount), results)
  {
    var prog := Move(from, to, amount);
    forall i: nat | i < |results| && StoreRead(prog, results, i).Some?
      ensures || (i == 0 && StoreRead(prog, results, i) == Some(from))
              || (i == 1 && StoreRead(prog, results, i) == Some(to))
    {
      assert |results[..i]| == i;
    }
  }

  lemma AuditReadsOnce(x: Key, y: Key, results: seq<int>)
    requires x != y
    ensures ReadsOnce(Audit(x, y, Commit), results)
  {
    var prog := Audit(x, y, Commit);
    forall i: nat | i < |results| && StoreRead(prog, results, i).Some?
      ensures (i == 0 && StoreRead(prog, results, i) == Some(x)) || (i == 1 && StoreRead(prog, results, i) == Some(y))
    {
      assert |results[..i]| == i;
    }
  }

  datatype Job = DepositJob(key: Key, amount: int) | MoveJob(from: Key, to: Key, amount: int) | AuditJob(x: Key, y: Key)

  function ProgramOf(job: Job): Program {
    match job
    case DepositJob(key, amount) => Deposit(key, amount)
    case MoveJob(from, to, amount) => Move(from, to, amount)
    case AuditJob(x, y) => Audit(x, y, Commit)
  }

  /** A job between two different accounts, all among those counted. */
  predicate Proper(job: Job, accounts: seq<Key>) {
    match job
    case DepositJob(key, _) => key in accounts
    case MoveJob(from, to, _) => from in accounts && to in accounts && from != to
    case AuditJob(x, y) => x in accounts && y in accounts && x != y
  }

  function Deposited(jobs: seq<Job>): int {
    if jobs == [] then 0
    else Deposited(jobs[..|jobs| - 1]) + if jobs[|jobs| - 1].DepositJob? then jobs[|jobs| - 1].amount else 0
  }

  ghost predicate Ran(jobs: seq<Job>, commits: seq<Done>, accounts: seq<Key>) {
    && |jobs| == |commits|
    && forall i :: 0 <= i < |jobs| ==> commits[i].prog == ProgramOf(jobs[i]) && Proper(jobs[i], accounts)
  }

  lemma ProperRunsAlone(run: seq<System>, i: nat, jobs: seq<Job>, accounts: seq<Key>, b: nat)
    requires IsRun(run) && i < |run| && Ran(jobs, run[i].commits, accounts) && b < |jobs|
    ensures var d := run[i].commits[b];
            && Stops(d.prog, d.results)
            && Sees(d.prog, d.results, StateAt(Writes, run[i].initial, run[i].commits, b))
  {
    CommittedOk(run, i, b);
    var d := run[i].commits[b];
    match jobs[b] {
      case DepositJob(key, amount) => DepositReadsOnce(key, amount, d.results);
      case MoveJob(from, to, amount) => MoveReadsOnce(from, to, amount, d.results);
      case AuditJob(x, y) => AuditReadsOnce(x, y, d.results);
    }
    OnceIsRepeatable(d.prog, d.results);
  }

  /** Conservation: transfers and audits keep the total, and no deposit is lost. */
  lemma {:induction false} TotalAfter(run: seq<System>, i: nat, jobs: seq<Job>, accounts: seq<Key>, n: nat)
    requires IsRun(run) && i < |run| && Distinct(accounts) && Ran(jobs, run[i].commits, accounts) && n <= |jobs|
    ensures Total(StateAt(Writes, run[i].initial, run[i].commits, n), accounts) ==
            Total(run[i].initial, accounts) + Deposited(jobs[..n])
    ensures n == |jobs| ==> StateAt(Writes, run[i].initial, run[i].commits, n) == StateOf(run[i].db)
  {
    RunInv(run, i);
    if n > 0 {
      TotalAfter(run, i, jobs, accounts, n - 1);
      ProperRunsAlone(run, i, jobs, accounts, n - 1);
      var before := StateAt(Writes, run[i].initial, run[i].commits, n - 1);
      TotalAfterJob(run[i].commits[n - 1], before, jobs[n - 1], accounts);
      assert jobs[..n][..n - 1] == jobs[..n - 1];
    }
  }

  /** One job run alone adds its deposit to the total. */
  lemma TotalAfterJob(d: Done, before: State, job: Job, accounts: seq<Key>)
    requires Stops(d.prog, d.results) && Sees(d.prog, d.results, before)
    requires d.prog == ProgramOf(job) && Proper(job, accounts) && Distinct(accounts)
    ensures Total(before + Drafts(d.prog, d.results), accounts) ==
            Total(before, accounts) + if job.DepositJob? then job.amount else 0
  {
    match job {
      case DepositJob(key, amount) =>
        DepositDrafts(key, amount, d.results, before);
        TotalAfterDeposit(before, accounts, key, amount);
      case MoveJob(from, to, amount) =>
        MoveDrafts(from, to, amount, d.results, before);
        TotalAfterTransfer(before, accounts, from, to, amount);
      case AuditJob(x, y) =>
        AuditSees(x, y, Commit, d.results, before);
        assert before + map[] == before;
    }
  }

  /** A committed audit reports the total of one actual state, the store's at its commit. */
  lemma AuditIsOneState(run: seq<System>, i: nat, a: nat, x: Key, y: Key)
    requires IsRun(run) && i < |run| && a < |run[i].commits| && x != y && run[i].commits[a].prog == Audit(x, y, Commit)
    ensures var state := StateAt(Writes, run[i].initial, run[i].commits, a);
            && run[i].commits[a].results == [Balance(state, x), Balance(state, y)]
            && run[i].commits[a].results[0] + run[i].commits[a].results[1] == Total(state, [x, y])
  {
    CommittedOk(run, i, a);
    var d, state := run[i].commits[a], StateAt(Writes, run[i].initial, run[i].commits, a);
    AuditReadsOnce(x, y, d.results);
    OnceIsRepeatable(d.prog, d.results);
    AuditSees(x, y, Commit, d.results, state);
    assert Total(state, [x, y]) == Balance(state, x) + Total(state, [x, y][1..]);
    assert Total(state, [x, y][1..]) == Balance(state, y) + Total(state, [x, y][1..][1..]);
  }

  // ------------------------------------------------------------- a re-read that tears

  /** Reads x twice and writes the sum of both readings to y. */
  function Twice(): Program {
    (results: seq<int>) =>
      if |results| < 2 then Get("x")
      else if |results| == 2 then Put("y", results[0] + results[1])
      else Commit
  }

  /** The two transactions side by side: the reader's, then the depositor's. */
  ghost function Side(db: Db, reader: Client, depositor: Client, commits: seq<Done>): System {
    System(db, [reader, depositor], map["x" := 100], commits)
  }

  // The depositor runs between the two readings, which record the version of the second.
  ghost function TornRun(): seq<System> {
    var before, after := map["x" := Entry(0, 100)], map["x" := Entry(1, 110)];
    var reads0, reads1 := map["x" := 0], map["x" := 1];
    var depositor := Running(Deposit("x", 10), Tx(reads0, map["x" := 110]), [100, 0]);
    var deposit := Done(Deposit("x", 10), [100, 0]);
    var once := Running(Twice(), Tx(reads0, map[]), [100]);
    [
      Side(before, Idle, Idle, []),
      Side(before, Running(Twice(), Tx(map[], map[]), []), Idle, []),
      Side(before, once, Idle, []),
      Side(before, once, Running(Deposit("x", 10), Tx(map[], map[]), []), []),
      Side(before, once, Running(Deposit("x", 10), Tx(reads0, map[]), [100]), []),
      Side(before, once, depositor, []),
      Side(after, once, Idle, [deposit]),
      Side(after, Running(Twice(), Tx(reads1, map[]), [100, 110]), Idle, [deposit]),
      Side(after, Running(Twice(), Tx(reads1, map["y" := 210]), [100, 110, 0]), Idle, [deposit]),
      Side(after["y" := Entry(1, 210)], Idle, Idle, [deposit, Done(Twice(), [100, 110, 0])])
    ]
  }

  /** A read or a write changes one client's fields. */
  lemma Plays(s: System, s': System, c: nat)
    requires c < |s.clients| && s.clients[c].Running? && s.clients[c].prog(s.clients[c].results) !in {Commit, Quit}
    requires s' == s.(clients := s'.clients) && |s'.clients| == |s.clients| && s'.clients[c].Running?
    requires forall d :: 0 <= d < |s.clients| && d != c ==> s'.clients[d] == s.clients[d]
    requires var was, now := Acted(s, c).clients[c], s'.clients[c];
             was.prog == now.prog && was.results == now.results && was.tx == now.tx
    ensures StepOf(s, s', c, Twice())
  {
    assert Acted(s, c).clients == s'.clients;
  }

  lemma TornBegins()
    ensures var run := TornRun();
            Init(run[0]) && Next(run[0], run[1]) && Next(run[1], run[2]) && Next(run[2], run[3]) && Next(run[3], run[4])
  {
    var run := TornRun();
    assert StepOf(run[0], run[1], 0, Twice());
    Plays(run[1], run[2], 0);
    assert StepOf(run[2], run[3], 1, Deposit("x", 10));
    Plays(run[3], run[4], 1);
  }

  lemma TornDeposits()
    ensures var run := TornRun(); Next(run[4], run[5]) && Next(run[5], run[6]) && Next(run[6], run[7])
  {
    var run := TornRun();
    Plays(run[4], run[5], 1);
    assert StepOf(run[5], run[6], 1, Twice());
    Plays(run[6], run[7], 0);
  }

  lemma TornEnds()
    ensures var run := TornRun(); Next(run[7], run[8]) && Next(run[8], run[9])
  {
    var run := TornRun();
    Plays(run[7], run[8], 0);
    assert StepOf(run[8], run[9], 0, Twice());
  }

  lemma TornRunIsRun()
    ensures IsRun(TornRun())
  {
    TornBegins();
    TornDeposits();
    TornEnds();
    NineSteps(TornRun());
  }

  lemma NineSteps(run: seq<System>)
    requires |run| == 10 && Init(run[0])
    requires Next(run[0], run[1]) && Next(run[1], run[2]) && Next(run[2], run[3]) && Next(run[3], run[4])
    requires Next(run[4], run[5]) && Next(run[5], run[6]) && Next(run[6], run[7])
    requires Next(run[7], run[8]) && Next(run[8], run[9])
    ensures IsRun(run)
  {
    forall i | 0 <= i < |run| - 1
      ensures Next(run[i], run[i + 1])
    {
      assert i in {0, 1, 2, 3, 4, 5, 6, 7, 8};
    }
  }

  lemma ThreeSteps(prog: Program, results: seq<int>, x: Key, y: Key, state: State)
    requires Sees(prog, results, state) && |results| == 3
    requires prog([]) == Get(x) && prog(results[..1]) == Get(x)
    requires prog(results[..2]) == Put(y, results[0] + results[1])
    ensures Drafts(prog, results) == map[y := 2 * Balance(state, x)]
  {
    assert results[..0] == [];
    assert results[..1] == [] + [results[0]];
    assert results[..2] == results[..1] + [results[1]];
    assert results == results[..2] + [results[2]];
    DraftsMore(prog, [], results[0]);
    DraftsMore(prog, results[..1], results[1]);
    DraftsMore(prog, results[..2], results[2]);
    assert results[0] == Expected(prog, results, 0, state) && results[1] == Expected(prog, results, 1, state);
  }

  lemma TwiceDrafts(results: seq<int>, state: State)
    requires Sees(Twice(), results, state) && Stops(Twice(), results)
    ensures Drafts(Twice(), results) == map["y" := 2 * Balance(state, "x")]
  {
    StopsBy(Twice(), results, 3);
    ThreeSteps(Twice(), results, "x", "y", state);
  }

  ghost function BothOrders(): seq<seq<Program>> {
    [[Deposit("x", 10), Twice()], [Twice(), Deposit("x", 10)]]
  }

  lemma SerialY(states: seq<State>, progs: seq<Program>)
    requires SerialRun(states, progs) && states[0] == map["x" := 100]
    requires progs in BothOrders()
    ensures Balance(states[2], "y") in {200, 220}
  {
    assert RunsAlone(progs[0], states[0], NextState(states, 0)) && RunsAlone(progs[1], states[1], NextState(states, 1));
    var first :| RunsAloneBy(progs[0], first, states[0], states[1]);
    var second :| RunsAloneBy(progs[1], second, states[1], states[2]);
    if progs[0] == Twice() {
      TwiceDrafts(first, states[0]);
      DepositDrafts("x", 10, second, states[1]);
    } else {
      DepositDrafts("x", 10, first, states[0]);
      TwiceDrafts(second, states[1]);
    }
  }

  /**
    A re-read overwrites the version recorded first, so a transaction that saw two values
    of one key commits, and the store is what no serial order of the two leaves.
    */
  lemma ReReadIsNotSerializable()
    ensures IsRun(TornRun())
    ensures var end := TornRun()[9];
            && |end.commits| == 2 && Balance(StateOf(end.db), "y") == 210
            && Programs(end.commits) == [Deposit("x", 10), Twice()]
            && forall states, progs :: SerialRun(states, progs) && states[0] == end.initial && progs in BothOrders() ==>
                 states[2] != StateOf(end.db)
  {
    TornRunIsRun();
    var end := TornRun()[9];
    forall states, progs | SerialRun(states, progs) && states[0] == end.initial && progs in BothOrders()
      ensures |states| == 3 && states[2] != StateOf(end.db)
    {
      SerialY(states, progs);
    }
  }
}
