/** When the optimistic engine refuses a commit, by the history of the run. */
module OccConflicts {
  import opened Options
  import opened Transactions
  import opened Occ
  import opened OccSystem

  /** How many of the commits wrote the key. */
  ghost function WrittenBy(commits: seq<Done>, key: Key): nat {
    if commits == [] then 0
    else WrittenBy(commits[..|commits| - 1], key) + if key in Writes(commits[|commits| - 1]) then 1 else 0
  }

  lemma {:induction false} WrittenLater(commits: seq<Done>, more: seq<Done>, key: Key)
    ensures WrittenBy(commits, key) <= WrittenBy(commits + more, key)
    ensures WrittenBy(commits + more, key) == WrittenBy(commits, key) <==>
            forall j :: 0 <= j < |more| ==> key !in Writes(more[j])
  {
    if more == [] {
      assert commits + more == commits;
    } else {
      var n := |more| - 1;
      WrittenLater(commits, more[..n], key);
      assert (commits + more)[..|commits + more| - 1] == commits + more[..n];
    }
  }

  // --------------------------------------------------------------------- versions

  /** A version counts the commits that wrote the key; a key nobody wrote may be missing. */
  ghost predicate VersionCounts(s: System, key: Key) {
    Lookup(s.db, key).version == WrittenBy(s.commits, key) && (WrittenBy(s.commits, key) > 0 ==> key in s.db)
  }

  lemma StepKeepsVersion(s: System, s': System, key: Key)
    requires Inv(s) && Next(s, s') && VersionCounts(s, key)
    ensures VersionCounts(s', key)
  {
    var c: nat, prog :| StepOf(s, s', c, prog);
    assert ClientInv(s, c);
    if s'.commits != s.commits {
      CommitKeepsVersion(s, c, key);
    }
  }

  lemma CommitKeepsVersion(s: System, c: nat, key: Key)
    requires c < |s.clients| && s.clients[c].Running? && ClientInv(s, c) && VersionCounts(s, key)
    requires Acted(s, c).commits != s.commits
    ensures VersionCounts(Acted(s, c), key)
  {
    var d := Done(s.clients[c].prog, s.clients[c].results);
    ActedCommits(s, c);
    OneMoreWritten(s.commits, d, key);
    InstalledLookup(s.db, Writes(d), key);
  }

  lemma ActedCommits(s: System, c: nat)
    requires c < |s.clients| && s.clients[c].Running? && ClientInv(s, c) && Acted(s, c).commits != s.commits
    ensures var d := Done(s.clients[c].prog, s.clients[c].results);
            Acted(s, c).commits == s.commits + [d] && Acted(s, c).db == Installed(s.db, Writes(d))
  {
  }

  lemma OneMoreWritten(commits: seq<Done>, d: Done, key: Key)
    ensures WrittenBy(commits + [d], key) == WrittenBy(commits, key) + if key in Writes(d) then 1 else 0
  {
    assert (commits + [d])[..|commits|] == commits;
  }

  lemma {:induction false} RunVersions(run: seq<System>, i: nat, key: Key)
    requires IsRun(run) && i < |run|
    ensures VersionCounts(run[i], key)
  {
    if i == 0 {
      InitVersion(run[0], key);
    } else {
      RunVersions(run, i - 1, key);
      RunInv(run, i - 1);
      RunNext(run, i - 1);
      StepKeepsVersion(run[i - 1], run[i], key);
    }
  }

  lemma InitVersion(s: System, key: Key)
    requires Init(s)
    ensures VersionCounts(s, key)
  {
  }

  lemma RunNext(run: seq<System>, k: nat)
    requires IsRun(run) && k + 1 < |run|
    ensures Next(run[k], run[k + 1])
  {
  }

  lemma StepKeepsCommits(s: System, s': System)
    requires Next(s, s')
    ensures s.commits <= s'.commits
  {
  }

  lemma {:induction false} CommitsGrow(run: seq<System>, a: nat, b: nat)
    requires IsRun(run) && a <= b < |run|
    ensures run[a].commits <= run[b].commits
    decreases b
  {
    if a < b {
      CommitsGrow(run, a, b - 1);
      assert Next(run[b - 1], run[b - 1 + 1]);
      StepKeepsCommits(run[b - 1], run[b]);
    }
  }

  // ------------------------------------------------------------------- last reads

  /** In this step client c reads the key from the store, not from its own draft. */
  ghost predicate ReadsNow(s: System, s': System, c: nat, key: Key)
    requires c < |s.clients| && c < |s'.clients|
  {
    && s.clients[c].Running? && s'.clients[c].Running?
    && s.clients[c].prog(s.clients[c].results) == Get(key) && key !in s.clients[c].tx.writes
    && |s'.clients[c].results| > |s.clients[c].results|
  }

  /** When client c last read the key from the store, since it last began or began anew. */
  ghost function LastRead(run: seq<System>, b: nat, c: nat, key: Key): Option<nat>
    requires b < |run| && forall k :: 0 <= k <= b ==> c < |run[k].clients|
  {
    if !run[b].clients[c].Running? || run[b].clients[c].results == [] || b == 0 then None
    else if ReadsNow(run[b - 1], run[b], c, key) then Some(b - 1)
    else LastRead(run, b - 1, c, key)
  }

  /** The recorded version of a key is its version at the last read. */
  ghost predicate RecordsAt(run: seq<System>, b: nat, c: nat, key: Key)
    requires b < |run| && forall k :: 0 <= k <= b ==> c < |run[k].clients|
  {
    run[b].clients[c].Running? ==>
      var versions, last := run[b].clients[c].tx.versions, LastRead(run, b, c, key);
      && (key in versions <==> last.Some?)
      && (key in versions ==> last.value < b && versions[key] == WrittenBy(run[last.value].commits, key))
  }

  lemma StepReads(s: System, s': System, c: nat, key: Key)
    requires Next(s, s') && c < |s.clients| && c < |s'.clients| && s'.clients[c].Running?
    requires s'.clients[c].results != []
    ensures s.clients[c].Running?
    ensures var was, now := s.clients[c].tx.versions, s'.clients[c].tx.versions;
            if ReadsNow(s, s', c, key) then key in now && now[key] == Lookup(s.db, key).version
            else (key in now <==> key in was) && (key in now ==> now[key] == was[key])
  {
    var u, prog :| StepOf(s, s', u, prog);
  }

  lemma StepBegins(s: System, s': System, c: nat)
    requires Next(s, s') && c < |s.clients| && c < |s'.clients| && s'.clients[c].Running?
    requires s'.clients[c].results == []
    requires s.clients[c].Running? && s.clients[c].results == [] ==> s.clients[c].tx.versions == map[]
    ensures s'.clients[c].tx.versions == map[]
  {
    var u, prog :| StepOf(s, s', u, prog);
  }

  lemma {:induction false} SameClients(run: seq<System>, a: nat, b: nat)
    requires IsRun(run) && a <= b < |run|
    ensures |run[a].clients| == |run[b].clients|
    decreases b
  {
    if a < b {
      SameClients(run, a, b - 1);
      assert Next(run[b - 1], run[b - 1 + 1]);
    }
  }

  lemma {:induction false} NothingYet(run: seq<System>, b: nat, c: nat)
    requires IsRun(run) && b < |run| && c < |run[b].clients|
    ensures run[b].clients[c].Running? && run[b].clients[c].results == [] ==> run[b].clients[c].tx.versions == map[]
  {
    if b > 0 {
      SameClients(run, b - 1, b);
      NothingYet(run, b - 1, c);
      assert Next(run[b - 1], run[b - 1 + 1]);
      if run[b].clients[c].Running? && run[b].clients[c].results == [] {
        StepBegins(run[b - 1], run[b], c);
      }
    }
  }

  lemma {:induction false} RunRecords(run: seq<System>, b: nat, c: nat, key: Key)
    requires IsRun(run) && b < |run| && forall k :: 0 <= k <= b ==> c < |run[k].clients|
    ensures RecordsAt(run, b, c, key)
  {
    if run[b].clients[c].Running? {
      NothingYet(run, b, c);
      if b > 0 && run[b].clients[c].results != [] {
        RunRecords(run, b - 1, c, key);
        assert Next(run[b - 1], run[b - 1 + 1]);
        StepReads(run[b - 1], run[b], c, key);
        RunVersions(run, b - 1, key);
      }
    }
  }

  // --------------------------------------------------------------------- all runs

  /** Some commit since client c's last read of the key wrote it. */
  ghost predicate Overtaken(run: seq<System>, b: nat, c: nat, key: Key)
    requires b < |run| && forall k :: 0 <= k <= b ==> c < |run[k].clients|
  {
    && LastRead(run, b, c, key).Some? && LastRead(run, b, c, key).value < |run|
    && exists j: nat :: |run[LastRead(run, b, c, key).value].commits| <= j < |run[b].commits|
                        && key in Writes(run[b].commits[j])
  }

  predicate Outdated(db: Db, versions: map<Key, nat>, key: Key) {
    key in versions && key in db && db[key].version != versions[key]
  }

  lemma OvertakenExactly(run: seq<System>, b: nat, c: nat, key: Key)
    requires IsRun(run) && b < |run| && forall k :: 0 <= k <= b ==> c < |run[k].clients|
    requires run[b].clients[c].Running?
    ensures Overtaken(run, b, c, key) <==> Outdated(run[b].db, run[b].clients[c].tx.versions, key)
  {
    RunRecords(run, b, c, key);
    RunVersions(run, b, key);
    var last := LastRead(run, b, c, key);
    if last.Some? {
      var before, after := run[last.value].commits, run[b].commits;
      CommitsGrow(run, last.value, b);
      var more := after[|before|..];
      assert before + more == after;
      WrittenLater(before, more, key);
      assert forall j :: 0 <= j < |more| ==> more[j] == after[|before| + j];
    }
  }

  /**
    A transaction at its commit is refused exactly when a commit since its last read of some
    key from the store wrote that key.
    */
  lemma RefusedExactly(run: seq<System>, b: nat, c: nat)
    requires IsRun(run) && b < |run| && c < |run[b].clients| && run[b].clients[c].Running?
    ensures forall k :: 0 <= k <= b ==> c < |run[k].clients|
    ensures Validates(run[b].db, run[b].clients[c].tx.versions) <==> forall key :: !Overtaken(run, b, c, key)
  {
    forall k | 0 <= k <= b
      ensures c < |run[k].clients|
    {
      SameClients(run, k, b);
    }
    forall key
      ensures Overtaken(run, b, c, key) <==> Outdated(run[b].db, run[b].clients[c].tx.versions, key)
    {
      OvertakenExactly(run, b, c, key);
    }
    ValidExactly(run[b].db, run[b].clients[c].tx.versions);
  }

  lemma ValidExactly(db: Db, versions: map<Key, nat>)
    ensures Validates(db, versions) <==> forall key :: !Outdated(db, versions, key)
  {
    if !Validates(db, versions) {
      var key :| key in versions && key in db && db[key].version != versions[key];
      assert Outdated(db, versions, key);
    }
    if key :| Outdated(db, versions, key) {
      assert key in versions && key in db;
    }
  }
}
