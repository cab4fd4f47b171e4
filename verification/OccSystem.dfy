/** Any number of threads running any programs on the optimistic engine; each read and each commit is one step. */
module OccSystem {
  import opened Options
  import opened Transactions
  import opened Occ

  datatype Client = Idle | Running(prog: Program, tx: Tx, results: seq<int>)

  datatype Done = Done(prog: Program, results: seq<int>)

  ghost function Writes(d: Done): State {
    Drafts(d.prog, d.results)
  }

  datatype System = System(
    db: Db,
    clients: seq<Client>,
    initial: State,           // the balances loaded before the threads start
    commits: seq<Done>)       // history: committed transactions in commit order

  ghost predicate Init(s: System) {
    && s.db == (map key | key in s.initial :: Entry(0, s.initial[key])) && s.commits == []
    && forall c :: 0 <= c < |s.clients| ==> s.clients[c] == Idle
  }

  ghost function Begun(s: System, c: nat, prog: Program): System
    requires c < |s.clients|
  {
    s.(clients := s.clients[c := Running(prog, Tx(map[], map[]), [])])
  }

  /** The next step of a running client; a refused commit starts the transaction over. */
  ghost function Acted(s: System, c: nat): System
    requires c < |s.clients| && s.clients[c].Running?
  {
    var Running(prog, tx, results) := s.clients[c];
    match prog(results)
    case Get(key) =>
      s.(clients := s.clients[c := Running(prog, ReadTx(tx, s.db, key), results + [ReadValue(tx, s.db, key)])])
    case Put(key, value) =>
      s.(clients := s.clients[c := Running(prog, tx.(writes := tx.writes[key := value]), results + [0])])
    case Commit =>
      if Validates(s.db, tx.versions) then
        s.(db := Installed(s.db, tx.writes), clients := s.clients[c := Idle],
           commits := s.commits + [Done(prog, results)])
      else Begun(s, c, prog)
    case Quit => s.(clients := s.clients[c := Idle])
  }

  ghost predicate StepOf(s: System, s': System, c: nat, prog: Program) {
    && c < |s.clients|
    && s' == if s.clients[c].Idle? then Begun(s, c, prog) else Acted(s, c)
  }

  ghost predicate Next(s: System, s': System) {
    exists c, prog :: StepOf(s, s', c, prog)
  }

  ghost predicate IsRun(run: seq<System>) {
    && |run| > 0
    && Init(run[0])
    && forall i :: 0 <= i < |run| - 1 ==> Next(run[i], run[i + 1])
  }

  // ------------------------------------------------------------- the serial store

  /** Running a program alone takes the state before to the state after. */
  ghost predicate RunsAlone(prog: Program, before: State, after: State) {
    exists results :: RunsAloneBy(prog, results, before, after)
  }

  ghost predicate RunsAloneBy(prog: Program, results: seq<int>, before: State, after: State) {
    && Sees(prog, results, before) && Stops(prog, results)
    && after == if prog(results) == Commit then before + Drafts(prog, results) else before
  }

  /** The programs, one after the other, pass through these states. */
  ghost predicate SerialRun(states: seq<State>, progs: seq<Program>) {
    && |states| == |progs| + 1
    && forall i: nat :: i < |progs| ==> RunsAlone(progs[i], states[i], NextState(states, i))
  }

  function NextState(states: seq<State>, i: nat): State
    requires i + 1 < |states|
  {
    states[i + 1]
  }

  /** A serial run has one outcome. */
  lemma {:induction false} SerialRunsAgree(a: seq<State>, b: seq<State>, progs: seq<Program>, n: nat)
    requires SerialRun(a, progs) && SerialRun(b, progs) && a[0] == b[0] && n <= |progs|
    ensures a[n] == b[n]
  {
    if n > 0 {
      SerialRunsAgree(a, b, progs, n - 1);
      assert RunsAlone(progs[n - 1], a[n - 1], NextState(a, n - 1));
      assert RunsAlone(progs[n - 1], b[n - 1], NextState(b, n - 1));
      var x :| RunsAloneBy(progs[n - 1], x, a[n - 1], a[n]);
      var y :| RunsAloneBy(progs[n - 1], y, b[n - 1], b[n]);
      RunsAloneOneWay(progs[n - 1], x, y, a[n - 1]);
    }
  }

  // ------------------------------------------------------- what a transaction saw

  /** The value of the last read of each key from the store. */
  ghost function Seen(prog: Program, results: seq<int>): State {
    if results == [] then map[] else
    var front := results[..|results| - 1];
    match StoreRead(prog, results, |front|)
    case Some(key) => Seen(prog, front)[key := results[|front|]]
    case None => Seen(prog, front)
  }

  /** Two reads of one key from the store gave the same value. */
  ghost predicate Repeatable(prog: Program, results: seq<int>) {
    forall i: nat, j: nat :: i < j < |results| && StoreRead(prog, results, i).Some? ==>
      StoreRead(prog, results, i) == StoreRead(prog, results, j) ==> results[i] == results[j]
  }

  ghost predicate ReadsOnce(prog: Program, results: seq<int>) {
    forall i: nat, j: nat :: i < j < |results| && StoreRead(prog, results, i).Some? ==>
      StoreRead(prog, results, i) != StoreRead(prog, results, j)
  }

  lemma OnceIsRepeatable(prog: Program, results: seq<int>)
    requires ReadsOnce(prog, results)
    ensures Repeatable(prog, results)
  {
  }

  lemma EarlierRead(prog: Program, results: seq<int>, n: nat, i: nat)
    requires i < n <= |results|
    ensures StoreRead(prog, results[..n], i) == StoreRead(prog, results, i)
    ensures forall state :: Expected(prog, results[..n], i, state) == Expected(prog, results, i, state)
  {
    assert results[..n][..i] == results[..i];
  }

  /** Every key read from the store is in Seen, */
  lemma {:induction false} ReadIsSeen(prog: Program, results: seq<int>, i: nat)
    requires i < |results| && StoreRead(prog, results, i).Some?
    ensures StoreRead(prog, results, i).value in Seen(prog, results)
  {
    var n := |results| - 1;
    if i < n {
      EarlierRead(prog, results, n, i);
      ReadIsSeen(prog, results[..n], i);
    }
  }

  /** which holds no other, and for each the result of some read of it. */
  lemma {:induction false} SeenIsRead(prog: Program, results: seq<int>)
    ensures forall key :: key in Seen(prog, results) ==>
              exists i: nat :: i < |results| && StoreRead(prog, results, i) == Some(key)
                               && results[i] == Seen(prog, results)[key]
  {
    if results != [] {
      var n := |results| - 1;
      var front := results[..n];
      SeenIsRead(prog, front);
      forall key | key in Seen(prog, results)
        ensures exists i: nat :: i < |results| && StoreRead(prog, results, i) == Some(key)
                                 && results[i] == Seen(prog, results)[key]
      {
        if StoreRead(prog, results, n) != Some(key) {
          var i: nat :| i < n && StoreRead(prog, front, i) == Some(key) && front[i] == Seen(prog, front)[key];
          EarlierRead(prog, results, n, i);
        }
      }
    }
  }

  /** Results that no state of the store has a say in are as they must be. */
  ghost predicate LocalOk(prog: Program, results: seq<int>) {
    forall i: nat :: i < |results| && StoreRead(prog, results, i).None? ==>
      results[i] == Expected(prog, results, i, map[])
  }

  /**
    On a state that agrees with the last reads, the transaction ran as if alone exactly when its reads were
    repeatable.
    */
  lemma AloneExactly(prog: Program, results: seq<int>, state: State)
    requires LocalOk(prog, results)
    requires forall key :: key in Seen(prog, results) ==> Balance(state, key) == Seen(prog, results)[key]
    ensures Sees(prog, results, state) <==> Repeatable(prog, results)
  {
    SeenIsRead(prog, results);
    if Repeatable(prog, results) {
      forall i: nat | i < |results|
        ensures results[i] == Expected(prog, results, i, state)
      {
        if StoreRead(prog, results, i).Some? {
          var key := StoreRead(prog, results, i).value;
          ReadIsSeen(prog, results, i);
          var j: nat :| j < |results| && StoreRead(prog, results, j) == Some(key)
                        && results[j] == Seen(prog, results)[key];
          assert i < j || i == j || j < i;
        }
      }
    }
    if Sees(prog, results, state) {
      forall i: nat, j: nat | i < j < |results| && StoreRead(prog, results, i).Some?
          && StoreRead(prog, results, i) == StoreRead(prog, results, j)
        ensures results[i] == results[j]
      {
        assert results[i] == Expected(prog, results, i, state) && results[j] == Expected(prog, results, j, state);
      }
    }
  }

  // ------------------------------------------------------------------- invariant

  /** A recorded version is not ahead of the store, and names the value that was read. */
  ghost predicate ReadOk(db: Db, versions: map<Key, nat>, seen: State) {
    && versions.Keys == seen.Keys
    && forall key :: key in versions ==>
         && versions[key] <= Lookup(db, key).version
         && (versions[key] == Lookup(db, key).version ==> seen[key] == Lookup(db, key).value)
  }

  ghost predicate GoesOn(prog: Program, results: seq<int>) {
    forall i: nat :: i < |results| ==> prog(results[..i]) !in {Commit, Quit}
  }

  ghost predicate TxOk(db: Db, prog: Program, tx: Tx, results: seq<int>) {
    && tx.writes == Drafts(prog, results)
    && ReadOk(db, tx.versions, Seen(prog, results))
    && LocalOk(prog, results)
    && GoesOn(prog, results)
  }

  ghost predicate ClientInv(s: System, c: nat)
    requires c < |s.clients|
  {
    s.clients[c].Running? ==> TxOk(s.db, s.clients[c].prog, s.clients[c].tx, s.clients[c].results)
  }

  ghost predicate CommitOk(initial: State, commits: seq<Done>, i: nat)
    requires i < |commits|
  {
    var d := commits[i];
    && Stops(d.prog, d.results) && d.prog(d.results) == Commit
    && (Sees(d.prog, d.results, StateAt(Writes, initial, commits, i)) <==> Repeatable(d.prog, d.results))
  }

  ghost predicate Inv(s: System) {
    && StateOf(s.db) == StateAt(Writes, s.initial, s.commits, |s.commits|)
    && (forall c: nat :: c < |s.clients| ==> ClientInv(s, c))
    && (forall i: nat :: i < |s.commits| ==> CommitOk(s.initial, s.commits, i))
  }

  // ------------------------------------------------------------------- every step

  lemma {:induction false} LocalMore(prog: Program, results: seq<int>, result: int)
    requires LocalOk(prog, results)
    requires StoreRead(prog, results + [result], |results|).None? ==>
               result == Expected(prog, results + [result], |results|, map[])
    ensures LocalOk(prog, results + [result])
  {
    var more := results + [result];
    forall i: nat | i < |more| && StoreRead(prog, more, i).None?
      ensures more[i] == Expected(prog, more, i, map[])
    {
      if i < |results| {
        assert more[..|results|] == results;
        EarlierRead(prog, more, |results|, i);
      }
    }
  }

  lemma SeenMore(prog: Program, results: seq<int>, result: int)
    ensures StoreRead(prog, results + [result], |results|) ==
            match prog(results)
            case Get(key) => if key in Drafts(prog, results) then None else Some(key)
            case _ => None
    ensures Seen(prog, results + [result]) ==
            match StoreRead(prog, results + [result], |results|)
            case Some(key) => Seen(prog, results)[key := result]
            case None => Seen(prog, results)
  {
    var more := results + [result];
    assert more[..|more| - 1] == results == more[..|results|];
  }

  lemma GoesOnMore(prog: Program, results: seq<int>, result: int)
    requires GoesOn(prog, results) && prog(results) !in {Commit, Quit}
    ensures GoesOn(prog, results + [result])
  {
    var more := results + [result];
    forall i: nat | i < |more|
      ensures prog(more[..i]) !in {Commit, Quit}
    {
      assert more[..i] == results[..i];
    }
  }

  lemma {:induction false} GetKeepsTx(db: Db, prog: Program, tx: Tx, results: seq<int>, key: Key)
    requires TxOk(db, prog, tx, results) && prog(results) == Get(key)
    ensures TxOk(db, prog, ReadTx(tx, db, key), results + [ReadValue(tx, db, key)])
  {
    var result := ReadValue(tx, db, key);
    DraftsMore(prog, results, result);
    SeenMore(prog, results, result);
    GoesOnMore(prog, results, result);
    assert (results + [result])[..|results|] == results;
    LocalMore(prog, results, result);
  }

  lemma {:induction false} PutKeepsTx(db: Db, prog: Program, tx: Tx, results: seq<int>, key: Key, value: int)
    requires TxOk(db, prog, tx, results) && prog(results) == Put(key, value)
    ensures TxOk(db, prog, tx.(writes := tx.writes[key := value]), results + [0])
  {
    DraftsMore(prog, results, 0);
    SeenMore(prog, results, 0);
    GoesOnMore(prog, results, 0);
    assert (results + [0])[..|results|] == results;
    LocalMore(prog, results, 0);
  }

  lemma {:induction false} ActKeepsClient(s: System, c: nat)
    requires c < |s.clients| && s.clients[c].Running? && ClientInv(s, c)
    requires s.clients[c].prog(s.clients[c].results) !in {Commit, Quit}
    ensures ClientInv(Acted(s, c), c)
  {
    var Running(prog, tx, results) := s.clients[c];
    match prog(results) {
      case Get(key) => GetKeepsTx(s.db, prog, tx, results, key);
      case Put(key, value) => PutKeepsTx(s.db, prog, tx, results, key, value);
    }
  }

  lemma {:induction false} OthersKeep(s: System, s': System, c: nat)
    requires Inv(s) && c < |s.clients| == |s'.clients| && ClientInv(s', c)
    requires s' == s.(clients := s.clients[c := s'.clients[c]])
    ensures Inv(s')
  {
    forall d: nat | d < |s'.clients|
      ensures ClientInv(s', d)
    {
      assert ClientInv(s, d);
    }
  }

  lemma {:induction false} RivalKeepsReads(db: Db, writes: State, versions: map<Key, nat>, seen: State)
    requires ReadOk(db, versions, seen)
    ensures ReadOk(Installed(db, writes), versions, seen)
  {
    forall key | key in versions
      ensures versions[key] <= Lookup(Installed(db, writes), key).version
      ensures versions[key] == Lookup(Installed(db, writes), key).version ==>
                seen[key] == Lookup(Installed(db, writes), key).value
    {
      InstalledLookup(db, writes, key);
    }
  }

  /** A validated transaction's last reads are the store's balances at its commit. */
  lemma ValidatedReads(db: Db, versions: map<Key, nat>, seen: State)
    requires ReadOk(db, versions, seen) && Validates(db, versions)
    ensures forall key :: key in seen ==> Balance(StateOf(db), key) == seen[key]
  {
  }

  lemma {:induction false} CommitsStayOk(initial: State, commits: seq<Done>, d: Done)
    requires forall i: nat :: i < |commits| ==> CommitOk(initial, commits, i)
    requires Stops(d.prog, d.results) && d.prog(d.results) == Commit
    requires Sees(d.prog, d.results, StateAt(Writes, initial, commits, |commits|)) <==> Repeatable(d.prog, d.results)
    ensures forall i: nat :: i <= |commits| ==> CommitOk(initial, commits + [d], i)
  {
    forall i: nat | i <= |commits|
      ensures CommitOk(initial, commits + [d], i)
    {
      StateAtStable(Writes, initial, commits, [d], i);
      if i < |commits| {
        assert CommitOk(initial, commits, i);
      }
    }
  }

  lemma {:induction false} RivalKeepsClients(s: System, c: nat)
    requires c < |s.clients| && s.clients[c].Running?
    requires s.clients[c].prog(s.clients[c].results) == Commit && Validates(s.db, s.clients[c].tx.versions)
    requires forall d: nat :: d < |s.clients| ==> ClientInv(s, d)
    ensures forall d: nat :: d < |s.clients| ==> ClientInv(Acted(s, c), d)
  {
    forall d: nat | d < |s.clients|
      ensures ClientInv(Acted(s, c), d)
    {
      assert ClientInv(s, d);
      if d != c && s.clients[d].Running? {
        var Running(prog, tx, results) := s.clients[d];
        RivalKeepsReads(s.db, s.clients[c].tx.writes, tx.versions, Seen(prog, results));
      }
    }
  }

  lemma {:induction false} CommitKeeps(s: System, c: nat)
    requires Inv(s) && c < |s.clients| && s.clients[c].Running?
    requires s.clients[c].prog(s.clients[c].results) == Commit && Validates(s.db, s.clients[c].tx.versions)
    ensures Inv(Acted(s, c))
  {
    var Running(prog, tx, results) := s.clients[c];
    assert ClientInv(s, c);
    CommittedAlone(s.db, prog, tx, results);
    CommitsStayOk(s.initial, s.commits, Done(prog, results));
    CommittedState(s.initial, s.commits, s.db, Done(prog, results));
    RivalKeepsClients(s, c);
  }

  lemma CommittedAlone(db: Db, prog: Program, tx: Tx, results: seq<int>)
    requires TxOk(db, prog, tx, results) && Validates(db, tx.versions) && prog(results) == Commit
    ensures Stops(prog, results) && (Sees(prog, results, StateOf(db)) <==> Repeatable(prog, results))
  {
    ValidatedReads(db, tx.versions, Seen(prog, results));
    AloneExactly(prog, results, StateOf(db));
  }

  lemma CommittedState(initial: State, commits: seq<Done>, db: Db, d: Done)
    requires StateOf(db) == StateAt(Writes, initial, commits, |commits|)
    ensures StateOf(Installed(db, Writes(d))) == StateAt(Writes, initial, commits + [d], |commits| + 1)
  {
    StateAtStable(Writes, initial, commits, [d], |commits|);
    InstalledState(db, Writes(d));
  }

  lemma {:induction false} StepKeeps(s: System, s': System, c: nat, prog: Program)
    requires Inv(s) && StepOf(s, s', c, prog)
    ensures Inv(s')
  {
    assert ClientInv(s, c);
    if s.clients[c].Running? && s.clients[c].prog(s.clients[c].results) == Commit
       && Validates(s.db, s.clients[c].tx.versions) {
      CommitKeeps(s, c);
    } else {
      if s.clients[c].Running? && s.clients[c].prog(s.clients[c].results) !in {Commit, Quit} {
        ActKeepsClient(s, c);
      }
      OthersKeep(s, s', c);
    }
  }

  lemma {:induction false} RunInv(run: seq<System>, i: nat)
    requires IsRun(run) && i < |run|
    ensures Inv(run[i])
  {
    if i > 0 {
      RunInv(run, i - 1);
      assert Next(run[i - 1], run[i - 1 + 1]);
      var c, prog :| StepOf(run[i - 1], run[i], c, prog);
      StepKeeps(run[i - 1], run[i], c, prog);
    }
  }
}
