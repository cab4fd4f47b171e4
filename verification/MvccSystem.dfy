/**
  Any number of threads running any programs on the multi-version engine. Begin, each
  read and each commit is one step, as the store's lock makes it; between them other
  threads run.
  */
module MvccSystem {
  import opened Transactions
  import opened Mvcc

  datatype Client = Idle | Running(prog: Program, tx: Tx, results: seq<int>)

  datatype Done = Done(prog: Program, snapshot: nat, results: seq<int>)

  ghost function Writes(d: Done): State {
    Drafts(d.prog, d.results)
  }

  datatype System = System(
    db: Db,
    clients: seq<Client>,
    initial: State,           // the balances loaded before the threads start
    commits: seq<Done>,       // history: committed transactions in commit order
    quits: seq<Done>)         // history: transactions that returned without committing

  function Loaded(initial: State): Db {
    Db(0, map key | key in initial :: [Version(0, initial[key])])
  }

  ghost predicate Init(s: System) {
    && s.db == Loaded(s.initial) && s.commits == [] && s.quits == []
    && forall c :: 0 <= c < |s.clients| ==> s.clients[c] == Idle
  }

  ghost predicate BeginStep(s: System, s': System, c: nat) {
    && c < |s.clients| && s.clients[c].Idle?
    && |s'.clients| == |s.clients| && s'.clients == s.clients[c := s'.clients[c]]
    && s'.clients[c].Running? && s'.clients[c].tx == Tx(s.db.clock, map[]) && s'.clients[c].results == []
    && s' == s.(clients := s'.clients)
  }

  ghost predicate ActStep(s: System, s': System, c: nat) {
    && c < |s.clients| && s.clients[c].Running?
    && var Running(prog, tx, results) := s.clients[c];
    match prog(results)
    case Get(key) =>
      s' == s.(clients := s.clients[c := Running(prog, tx, results + [Read(tx, s.db, key)])])
    case Put(key, value) =>
      s' == s.(clients := s.clients[c := Running(prog, tx.(writes := tx.writes[key := value]), results + [0])])
    case Commit =>
      (match TryCommit(s.db, tx)
       case Some(db) =>
         s' == s.(db := db, clients := s.clients[c := Idle], commits := s.commits + [Done(prog, tx.snapshot, results)])
       case None => s' == s.(clients := s.clients[c := Idle]))
    case Quit =>
      s' == s.(clients := s.clients[c := Idle], quits := s.quits + [Done(prog, tx.snapshot, results)])
  }

  ghost predicate Next(s: System, s': System) {
    exists c: nat :: BeginStep(s, s', c) || ActStep(s, s', c)
  }

  ghost predicate IsRun(run: seq<System>) {
    && |run| > 0
    && Init(run[0])
    && forall i :: 0 <= i < |run| - 1 ==> Next(run[i], run[i + 1])
  }

  // ------------------------------------------------------------------- invariant

  ghost predicate Faithful(s: System) {
    && s.db.clock == |s.commits|
    && forall key, n: nat :: n <= s.db.clock ==>
         ReadAt(s.db, key, n) == Balance(StateAt(Writes, s.initial, s.commits, n), key)
  }

  /** Key has a version made by commit i (counted from 0). */
  ghost predicate MadeBy(db: Db, key: Key, i: nat) {
    exists j :: 0 <= j < |Versions(db.data, key)| && Versions(db.data, key)[j].ts == i + 1
  }

  ghost predicate Stamps(s: System) {
    && StampedBy(s.db.data, s.db.clock)
    && forall key, i: nat :: i < |s.commits| ==> (MadeBy(s.db, key, i) <==> key in Writes(s.commits[i]))
  }

  ghost predicate RanOn(prog: Program, snapshot: nat, results: seq<int>, initial: State, commits: seq<Done>) {
    && snapshot <= |commits|
    && Sees(prog, results, StateAt(Writes, initial, commits, snapshot))
    && forall i: nat :: i < |results| ==> prog(results[..i]) !in {Commit, Quit}
  }

  ghost predicate Finished(d: Done, initial: State, commits: seq<Done>) {
    RanOn(d.prog, d.snapshot, d.results, initial, commits) && Stops(d.prog, d.results)
  }

  ghost predicate ClientInv(s: System, c: nat)
    requires c < |s.clients|
  {
    s.clients[c].Running? ==>
      && RanOn(s.clients[c].prog, s.clients[c].tx.snapshot, s.clients[c].results, s.initial, s.commits)
      && s.clients[c].tx.writes == Drafts(s.clients[c].prog, s.clients[c].results)
  }

  /** No commit between the snapshot and n writes one of the keys. */
  ghost predicate NoneWrote(commits: seq<Done>, snapshot: nat, n: nat, keys: set<Key>)
    requires n <= |commits|
  {
    forall i: nat :: snapshot <= i < n ==> Writes(commits[i]).Keys !! keys
  }

  ghost predicate CommitOk(s: System, i: nat)
    requires i < |s.commits|
  {
    var d := s.commits[i];
    && d.snapshot <= i
    && Finished(d, s.initial, s.commits) && d.prog(d.results) == Commit
    && NoneWrote(s.commits, d.snapshot, i, Writes(d).Keys)
  }

  ghost predicate Inv(s: System) {
    && Faithful(s)
    && Stamps(s)
    && (forall c: nat :: c < |s.clients| ==> ClientInv(s, c))
    && (forall i: nat :: i < |s.commits| ==> CommitOk(s, i))
    && (forall i: nat :: i < |s.quits| ==> Finished(s.quits[i], s.initial, s.commits))
  }

  // ------------------------------------------------------------------- every step

  /** A transaction is refused exactly when a commit since its snapshot wrote one of its keys. */
  lemma RefusedExactly(s: System, tx: Tx)
    requires Stamps(s) && s.db.clock == |s.commits| && tx.snapshot <= s.db.clock
    ensures Conflicts(s.db, tx) <==> !NoneWrote(s.commits, tx.snapshot, |s.commits|, tx.writes.Keys)
  {
    if Conflicts(s.db, tx) {
      var key :| key in tx.writes && HasLater(Versions(s.db.data, key), tx.snapshot);
      var versions := Versions(s.db.data, key);
      var j :| 0 <= j < |versions| && versions[j].ts > tx.snapshot;
      var i := versions[j].ts - 1;
      assert MadeBy(s.db, key, i);
      assert key in Writes(s.commits[i]).Keys && key in tx.writes.Keys;
    }
    if !NoneWrote(s.commits, tx.snapshot, |s.commits|, tx.writes.Keys) {
      var i: nat :| tx.snapshot <= i < |s.commits| && !(Writes(s.commits[i]).Keys !! tx.writes.Keys);
      var key :| key in Writes(s.commits[i]).Keys && key in tx.writes.Keys;
      assert MadeBy(s.db, key, i);
      assert HasLater(Versions(s.db.data, key), tx.snapshot);
    }
  }

  lemma RanOnStable(prog: Program, snapshot: nat, results: seq<int>, initial: State, commits: seq<Done>,
                    more: seq<Done>)
    requires RanOn(prog, snapshot, results, initial, commits)
    ensures RanOn(prog, snapshot, results, initial, commits + more)
  {
    StateAtStable(Writes, initial, commits, more, snapshot);
  }

  lemma {:induction false} RanOnMore(prog: Program, snapshot: nat, results: seq<int>, initial: State,
                                     commits: seq<Done>,
                                     result: int)
    requires RanOn(prog, snapshot, results, initial, commits) && prog(results) !in {Commit, Quit}
    requires result == Expected(prog, results + [result], |results|, StateAt(Writes, initial, commits, snapshot))
    ensures RanOn(prog, snapshot, results + [result], initial, commits)
  {
    SeesMore(prog, results, StateAt(Writes, initial, commits, snapshot), result);
    forall i: nat | i < |results + [result]|
      ensures prog((results + [result])[..i]) !in {Commit, Quit}
    {
      assert (results + [result])[..i] == results[..i];
    }
  }

  lemma NewResult(prog: Program, results: seq<int>, result: int, state: State)
    ensures Expected(prog, results + [result], |results|, state) ==
            match prog(results)
            case Get(key) => if key in Drafts(prog, results) then Drafts(prog, results)[key] else Balance(state, key)
            case _ => 0
  {
    assert (results + [result])[..|results|] == results;
  }

  lemma {:induction false} ReadKeeps(s: System, s': System, c: nat)
    requires Inv(s) && c < |s.clients| && s.clients[c].Running? && ActStep(s, s', c)
    requires s.clients[c].prog(s.clients[c].results) !in {Commit, Quit}
    ensures Inv(s')
  {
    var Running(prog, tx, results) := s.clients[c];
    assert ClientInv(s, c);
    var result := s'.clients[c].results[|results|];
    NewResult(prog, results, result, StateAt(Writes, s.initial, s.commits, tx.snapshot));
    RanOnMore(prog, tx.snapshot, results, s.initial, s.commits, result);
    DraftsMore(prog, results, result);
    assert ClientInv(s', c);
    OthersKeep(s, s', c);
  }

  lemma {:induction false} OthersKeep(s: System, s': System, c: nat)
    requires Inv(s) && c < |s.clients| == |s'.clients| && ClientInv(s', c)
    requires s' == s.(clients := s.clients[c := s'.clients[c]], quits := s'.quits)
    requires forall i: nat :: i < |s'.quits| ==> Finished(s'.quits[i], s.initial, s.commits)
    ensures Inv(s')
  {
    forall d: nat | d < |s'.clients|
      ensures ClientInv(s', d)
    {
      assert ClientInv(s, d);
    }
    forall i: nat | i < |s'.commits|
      ensures CommitOk(s', i)
    {
      assert CommitOk(s, i);
    }
  }

  lemma {:induction false} LocalKeeps(s: System, s': System, c: nat)
    requires Inv(s) && (BeginStep(s, s', c) || (ActStep(s, s', c) && s'.commits == s.commits))
    ensures Inv(s')
  {
    assert ClientInv(s, c);
    if ActStep(s, s', c) && s.clients[c].prog(s.clients[c].results) !in {Commit, Quit} {
      ReadKeeps(s, s', c);
    } else {
      OthersKeep(s, s', c);
    }
  }

  lemma {:induction false} CommitFaithful(s: System, d: Done)
    requires Faithful(s) && StampedBy(s.db.data, s.db.clock)
    ensures Faithful(s.(db := Installed(s.db, Writes(d)), commits := s.commits + [d]))
  {
    var commits := s.commits + [d];
    forall key, n: nat | n <= s.db.clock + 1
      ensures ReadAt(Installed(s.db, Writes(d)), key, n) == Balance(StateAt(Writes, s.initial, commits, n), key)
    {
      CommitReadsOne(s, d, key, n);
    }
  }

  lemma CommitReadsOne(s: System, d: Done, key: Key, n: nat)
    requires Faithful(s) && StampedBy(s.db.data, s.db.clock) && n <= s.db.clock + 1
    ensures ReadAt(Installed(s.db, Writes(d)), key, n) == Balance(StateAt(Writes, s.initial, s.commits + [d], n), key)
  {
    CommitReadsAt(s.db, Writes(d), key, n);
    var m := if n <= s.db.clock then n else s.db.clock;
    StateAtStable(Writes, s.initial, s.commits, [d], m);
    assert ReadAt(s.db, key, m) == Balance(StateAt(Writes, s.initial, s.commits, m), key);
    if n > s.db.clock {
      assert StateAt(Writes, s.initial, s.commits + [d], n)
          == StateAt(Writes, s.initial, s.commits + [d], m) + Writes(d);
    }
  }

  lemma MadeByCommit(db: Db, writes: State, key: Key, i: nat)
    requires StampedBy(db.data, db.clock) && i <= db.clock
    ensures MadeBy(Installed(db, writes), key, i) <==> if i < db.clock then MadeBy(db, key, i) else key in writes
  {
    InstalledVersions(db, writes, key);
    var was, now := Versions(db.data, key), Versions(Installed(db, writes).data, key);
    if j :| 0 <= j < |was| && was[j].ts == i + 1 {
      assert now[j].ts == i + 1;
    }
    if key in writes {
      assert now[|was|].ts == db.clock + 1;
    }
    if j :| 0 <= j < |now| && now[j].ts == i + 1 {
      assert j < |was| ==> was[j].ts == i + 1;
    }
  }

  lemma {:induction false} CommitStamps(s: System, d: Done)
    requires Stamps(s) && s.db.clock == |s.commits|
    ensures Stamps(s.(db := Installed(s.db, Writes(d)), commits := s.commits + [d]))
  {
    InstalledStamps(s.db, Writes(d));
    forall key, i: nat | i <= |s.commits|
      ensures MadeBy(Installed(s.db, Writes(d)), key, i) <==> key in Writes((s.commits + [d])[i])
    {
      MadeByCommit(s.db, Writes(d), key, i);
    }
  }

  lemma {:induction false} CommitsStayOk(s: System, s': System, d: Done)
    requires (forall i: nat :: i < |s.commits| ==> CommitOk(s, i))
    requires s'.initial == s.initial && s'.commits == s.commits + [d]
    requires Finished(d, s.initial, s.commits) && d.prog(d.results) == Commit
    requires NoneWrote(s.commits, d.snapshot, |s.commits|, Writes(d).Keys)
    ensures forall i: nat :: i < |s'.commits| ==> CommitOk(s', i)
  {
    forall i: nat | i < |s'.commits|
      ensures CommitOk(s', i)
    {
      if i < |s.commits| {
        assert CommitOk(s, i);
      }
      var e := s'.commits[i];
      RanOnStable(e.prog, e.snapshot, e.results, s.initial, s.commits, [d]);
    }
  }

  lemma {:induction false} CommitKeeps(s: System, s': System, c: nat)
    requires Inv(s) && ActStep(s, s', c) && s'.commits != s.commits
    ensures Inv(s')
  {
    var Running(prog, tx, results) := s.clients[c];
    var d := Done(prog, tx.snapshot, results);
    assert ClientInv(s, c);
    RefusedExactly(s, tx);
    CommitFaithful(s, d);
    CommitStamps(s, d);
    CommitsStayOk(s, s', d);
    forall e: nat | e < |s'.clients|
      ensures ClientInv(s', e)
    {
      assert ClientInv(s, e);
      if e != c && s.clients[e].Running? {
        RanOnStable(s.clients[e].prog, s.clients[e].tx.snapshot, s.clients[e].results, s.initial, s.commits, [d]);
      }
    }
    forall i: nat | i < |s'.quits|
      ensures Finished(s'.quits[i], s'.initial, s'.commits)
    {
      var q := s.quits[i];
      RanOnStable(q.prog, q.snapshot, q.results, s.initial, s.commits, [d]);
    }
  }

  lemma NewestOfOne(version: Version, n: nat)
    requires version.ts == 0
    ensures Newest([version], n) == version.value
  {
  }

  lemma InitInv(s: System)
    requires Init(s)
    ensures Inv(s)
  {
    forall key, n: nat | n <= s.db.clock
      ensures ReadAt(s.db, key, n) == Balance(StateAt(Writes, s.initial, s.commits, n), key)
    {
      if key in s.initial {
        NewestOfOne(Version(0, s.initial[key]), n);
      }
    }
  }

  lemma {:induction false} RunInv(run: seq<System>, i: nat)
    requires IsRun(run) && i < |run|
    ensures Inv(run[i])
  {
    if i == 0 {
      InitInv(run[0]);
    } else {
      RunInv(run, i - 1);
      assert Next(run[i - 1], run[i - 1 + 1]);
      var c: nat :| BeginStep(run[i - 1], run[i], c) || ActStep(run[i - 1], run[i], c);
      if ActStep(run[i - 1], run[i], c) && run[i].commits != run[i - 1].commits {
        CommitKeeps(run[i - 1], run[i], c);
      } else {
        LocalKeeps(run[i - 1], run[i], c);
      }
    }
  }

  // ------------------------------------------------------------------- all runs

  /** What a snapshot reads is what the first commits leave, replayed serially. */
  lemma SnapshotReads(run: seq<System>, i: nat, key: Key, n: nat)
    requires IsRun(run) && i < |run| && n <= run[i].db.clock
    ensures run[i].db.clock == |run[i].commits|
    ensures ReadAt(run[i].db, key, n) == Balance(StateAt(Writes, run[i].initial, run[i].commits, n), key)
  {
    RunInv(run, i);
  }

  lemma {:induction false} CommitsGrow(run: seq<System>, i: nat, j: nat)
    requires IsRun(run) && i <= j < |run|
    ensures run[i].commits <= run[j].commits && run[i].initial == run[j].initial
    decreases j - i
  {
    if i < j {
      CommitsGrow(run, i, j - 1);
      assert Next(run[j - 1], run[j - 1 + 1]);
    }
  }

  /** What a snapshot reads never changes later. */
  lemma SnapshotsNeverChange(run: seq<System>, i: nat, j: nat, key: Key, n: nat)
    requires IsRun(run) && i <= j < |run| && n <= run[i].db.clock
    ensures n <= run[j].db.clock && ReadAt(run[j].db, key, n) == ReadAt(run[i].db, key, n)
  {
    RunInv(run, i);
    RunInv(run, j);
    CommitsGrow(run, i, j);
    var more := run[j].commits[|run[i].commits|..];
    assert run[j].commits == run[i].commits + more;
    StateAtStable(Writes, run[i].initial, run[i].commits, more, n);
  }

  /**
    First committer wins, exactly: a transaction at its commit is refused iff a key of its own was committed since its
    snapshot.
    */
  lemma CommitsExactly(run: seq<System>, i: nat, c: nat)
    requires IsRun(run) && i < |run| && c < |run[i].clients| && run[i].clients[c].Running?
    ensures var tx := run[i].clients[c].tx;
            && tx.snapshot <= |run[i].commits|
            && (TryCommit(run[i].db, tx).Some? <==>
                NoneWrote(run[i].commits, tx.snapshot, |run[i].commits|, tx.writes.Keys))
  {
    RunInv(run, i);
    assert ClientInv(run[i], c);
    RefusedExactly(run[i], run[i].clients[c].tx);
  }

  /**
    A transfer that has run to its end asks for its commit exactly when the balance its
    snapshot held of the first account covers the amount.
    */
  lemma TransferAsksExactly(run: seq<System>, i: nat, c: nat, from: Key, to: Key, amount: int)
    requires IsRun(run) && i < |run| && c < |run[i].clients| && run[i].clients[c].Running?
    requires run[i].clients[c].prog == Transfer(from, to, amount)
    requires run[i].clients[c].prog(run[i].clients[c].results) in {Commit, Quit}
    ensures run[i].clients[c].tx.snapshot <= |run[i].commits|
    ensures run[i].clients[c].prog(run[i].clients[c].results) == Commit <==>
            Balance(StateAt(Writes, run[i].initial, run[i].commits, run[i].clients[c].tx.snapshot), from) >= amount
  {
    RunInv(run, i);
    assert ClientInv(run[i], c);
    TransferCommitsExactly(from, to, amount, run[i].clients[c].results,
                           StateAt(Writes, run[i].initial, run[i].commits, run[i].clients[c].tx.snapshot));
  }

  /** Two committed transactions that overlap, the later begun before the earlier committed, write different keys. */
  lemma OverlappingWriteApart(run: seq<System>, i: nat, a: nat, b: nat)
    requires IsRun(run) && i < |run| && a < b < |run[i].commits| && run[i].commits[b].snapshot <= a
    ensures Writes(run[i].commits[a]).Keys !! Writes(run[i].commits[b]).Keys
  {
    RunInv(run, i);
    assert CommitOk(run[i], b);
  }

  lemma {:induction false} UntouchedKey(initial: State, commits: seq<Done>, snapshot: nat, n: nat, key: Key)
    requires snapshot <= n <= |commits| && NoneWrote(commits, snapshot, n, {key})
    ensures Balance(StateAt(Writes, initial, commits, n), key)
         == Balance(StateAt(Writes, initial, commits, snapshot), key)
  {
    if snapshot < n {
      UntouchedKey(initial, commits, snapshot, n - 1, key);
      assert Writes(commits[n - 1]).Keys !! {key};
      assert key !in Writes(commits[n - 1]);
    }
  }

  /** No lost update: a committed transaction's snapshot of a key it writes is the value its commit replaces. */
  lemma WritersSawLatest(run: seq<System>, i: nat, b: nat, key: Key)
    requires IsRun(run) && i < |run| && b < |run[i].commits| && key in Writes(run[i].commits[b])
    ensures run[i].commits[b].snapshot <= b
    ensures Balance(StateAt(Writes, run[i].initial, run[i].commits, run[i].commits[b].snapshot), key)
         == Balance(StateAt(Writes, run[i].initial, run[i].commits, b), key)
  {
    RunInv(run, i);
    assert CommitOk(run[i], b);
    UntouchedKey(run[i].initial, run[i].commits, run[i].commits[b].snapshot, b, key);
  }

  // --------------------------------------------------------- deposits and transfers

  datatype Job = DepositJob(key: Key, amount: int) | TransferJob(from: Key, to: Key, amount: int)

  function ProgramOf(job: Job): Program {
    match job
    case DepositJob(key, amount) => Deposit(key, amount)
    case TransferJob(from, to, amount) => Transfer(from, to, amount)
  }

  predicate Within(job: Job, accounts: seq<Key>) {
    match job
    case DepositJob(key, _) => key in accounts
    case TransferJob(from, to, _) => from in accounts && to in accounts
  }

  /** What a committed job adds to the total: nothing, for a transfer between two accounts. */
  function Gain(job: Job): int {
    match job
    case DepositJob(_, amount) => amount
    case TransferJob(from, to, amount) => if from == to then amount else 0
  }

  function Gains(jobs: seq<Job>): int {
    if jobs == [] then 0 else Gains(jobs[..|jobs| - 1]) + Gain(jobs[|jobs| - 1])
  }

  ghost predicate Ran(jobs: seq<Job>, commits: seq<Done>, accounts: seq<Key>) {
    && |jobs| == |commits|
    && forall i :: 0 <= i < |jobs| ==> commits[i].prog == ProgramOf(jobs[i]) && Within(jobs[i], accounts)
  }

  lemma CommittedRan(run: seq<System>, i: nat, b: nat)
    requires IsRun(run) && i < |run| && b < |run[i].commits|
    ensures var d := run[i].commits[b];
            && d.snapshot <= b && Stops(d.prog, d.results) && d.prog(d.results) == Commit
            && Sees(d.prog, d.results, StateAt(Writes, run[i].initial, run[i].commits, d.snapshot))
  {
    RunInv(run, i);
    assert CommitOk(run[i], b);
  }

  /** A committed deposit adds its amount to the balance it replaces: it is never lost. */
  lemma DepositLands(run: seq<System>, i: nat, b: nat, key: Key, amount: int)
    requires IsRun(run) && i < |run| && b < |run[i].commits| && run[i].commits[b].prog == Deposit(key, amount)
    ensures var before := StateAt(Writes, run[i].initial, run[i].commits, b);
            StateAt(Writes, run[i].initial, run[i].commits, b + 1) == before + map[key := Balance(before, key) + amount]
  {
    CommittedRan(run, i, b);
    var d := run[i].commits[b];
    DepositDrafts(key, amount, d.results, StateAt(Writes, run[i].initial, run[i].commits, d.snapshot));
    WritersSawLatest(run, i, b, key);
  }

  lemma {:induction false} TransferSaw(run: seq<System>, i: nat, b: nat, from: Key, to: Key, amount: int)
    requires IsRun(run) && i < |run| && b < |run[i].commits| && run[i].commits[b].prog == Transfer(from, to, amount)
    ensures var before := StateAt(Writes, run[i].initial, run[i].commits, b);
            && Balance(before, from) >= amount
            && Writes(run[i].commits[b]) ==
                 map[from := Balance(before, from) - amount][to := Balance(before, to) + amount]
  {
    CommittedRan(run, i, b);
    var d := run[i].commits[b];
    TransferDrafts(from, to, amount, d.results, StateAt(Writes, run[i].initial, run[i].commits, d.snapshot));
    assert from in Writes(d) && to in Writes(d);
    WritersSawLatest(run, i, b, from);
    WritersSawLatest(run, i, b, to);
  }

  /** A committed transfer moves its amount between the balances it replaces, and the first covered it. */
  lemma TransferLands(run: seq<System>, i: nat, b: nat, from: Key, to: Key, amount: int)
    requires IsRun(run) && i < |run| && b < |run[i].commits| && run[i].commits[b].prog == Transfer(from, to, amount)
    ensures var before := StateAt(Writes, run[i].initial, run[i].commits, b);
            && Balance(before, from) >= amount
            && StateAt(Writes, run[i].initial, run[i].commits, b + 1) ==
               before + map[from := Balance(before, from) - amount][to := Balance(before, to) + amount]
  {
    TransferSaw(run, i, b, from, to, amount);
  }

  lemma TransferGains(run: seq<System>, i: nat, b: nat, from: Key, to: Key, amount: int, accounts: seq<Key>)
    requires IsRun(run) && i < |run| && b < |run[i].commits| && run[i].commits[b].prog == Transfer(from, to, amount)
    requires Distinct(accounts) && from in accounts && to in accounts
    ensures Total(StateAt(Writes, run[i].initial, run[i].commits, b + 1), accounts) ==
            Total(StateAt(Writes, run[i].initial, run[i].commits, b), accounts) + if from == to then amount else 0
  {
    TransferLands(run, i, b, from, to, amount);
    TotalAfterTransfer(StateAt(Writes, run[i].initial, run[i].commits, b), accounts, from, to, amount);
  }

  lemma DepositGains(run: seq<System>, i: nat, b: nat, key: Key, amount: int, accounts: seq<Key>)
    requires IsRun(run) && i < |run| && b < |run[i].commits| && run[i].commits[b].prog == Deposit(key, amount)
    requires Distinct(accounts) && key in accounts
    ensures Total(StateAt(Writes, run[i].initial, run[i].commits, b + 1), accounts) ==
            Total(StateAt(Writes, run[i].initial, run[i].commits, b), accounts) + amount
  {
    DepositLands(run, i, b, key, amount);
    TotalAfterDeposit(StateAt(Writes, run[i].initial, run[i].commits, b), accounts, key, amount);
  }

  lemma {:induction false} JobGains(run: seq<System>, i: nat, job: Job, accounts: seq<Key>, b: nat)
    requires IsRun(run) && i < |run| && b < |run[i].commits| && run[i].commits[b].prog == ProgramOf(job)
    requires Distinct(accounts) && Within(job, accounts)
    ensures Total(StateAt(Writes, run[i].initial, run[i].commits, b + 1), accounts) ==
            Total(StateAt(Writes, run[i].initial, run[i].commits, b), accounts) + Gain(job)
  {
    match job {
      case DepositJob(key, amount) => DepositGains(run, i, b, key, amount, accounts);
      case TransferJob(from, to, amount) => TransferGains(run, i, b, from, to, amount, accounts);
    }
  }

  /**
    Conservation at every snapshot: when only deposits and transfers commit, the total
    after the first n commits is the initial one, plus the deposits, plus the amounts of
    transfers from an account to itself, which the engine creates.
    */
  lemma {:induction false} TotalAtSnapshot(run: seq<System>, i: nat, jobs: seq<Job>, accounts: seq<Key>, n: nat)
    requires IsRun(run) && i < |run| && Distinct(accounts) && Ran(jobs, run[i].commits, accounts) && n <= |jobs|
    ensures Total(StateAt(Writes, run[i].initial, run[i].commits, n), accounts) ==
            Total(run[i].initial, accounts) + Gains(jobs[..n])
  {
    if n > 0 {
      TotalAtSnapshot(run, i, jobs, accounts, n - 1);
      JobGains(run, i, jobs[n - 1], accounts, n - 1);
      assert jobs[..n][..n - 1] == jobs[..n - 1];
    }
  }

  /** One transfer keeps the total exactly when it is between two accounts, or of nothing. */
  lemma TransferKeepsTotalExactly(run: seq<System>, i: nat, b: nat, from: Key, to: Key, amount: int, accounts: seq<Key>)
    requires IsRun(run) && i < |run| && b < |run[i].commits| && run[i].commits[b].prog == Transfer(from, to, amount)
    requires Distinct(accounts) && from in accounts && to in accounts
    ensures (Total(StateAt(Writes, run[i].initial, run[i].commits, b + 1), accounts)
             == Total(StateAt(Writes, run[i].initial, run[i].commits, b), accounts)) <==> (from != to || amount == 0)
  {
    TransferGains(run, i, b, from, to, amount, accounts);
  }

  /** An audit never retries and prints the balances of one snapshot, whatever commits between its reads. */
  lemma AuditIsOneSnapshot(run: seq<System>, i: nat, a: nat, x: Key, y: Key)
    requires IsRun(run) && i < |run| && a < |run[i].quits| && run[i].quits[a].prog == Audit(x, y, Quit)
    ensures run[i].quits[a].snapshot <= |run[i].commits|
    ensures var state := StateAt(Writes, run[i].initial, run[i].commits, run[i].quits[a].snapshot);
            && run[i].quits[a].results == [Balance(state, x), Balance(state, y)]
            && (x != y ==> run[i].quits[a].results[0] + run[i].quits[a].results[1] == Total(state, [x, y]))
  {
    RunInv(run, i);
    var q := run[i].quits[a];
    var state := StateAt(Writes, run[i].initial, run[i].commits, q.snapshot);
    AuditSees(x, y, Quit, q.results, state);
    assert Total(state, [x, y]) == Balance(state, x) + Total(state, [x, y][1..]);
    assert Total(state, [x, y][1..]) == Balance(state, y) + Total(state, [x, y][1..][1..]);
  }
}
