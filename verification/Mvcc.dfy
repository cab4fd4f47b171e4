/** The multi-version engine: its store, transactions, commit rule and retry loops. */
module Mvcc {
  import opened Options
  import opened Transactions

  datatype Version = Version(ts: nat, value: int)

  /** The number of commits so far, and each key's versions with the newest at the end. */
  datatype Db = Db(clock: nat, data: map<Key, seq<Version>>)

  datatype Tx = Tx(snapshot: nat, writes: State)

  function Versions(data: map<Key, seq<Version>>, key: Key): seq<Version> {
    if key in data then data[key] else []
  }

  /** The value of the last version in the list no later than the snapshot; zero if there is none. */
  function Newest(versions: seq<Version>, snapshot: nat): int {
    if versions == [] then 0 else
    var last := versions[|versions| - 1];
    if last.ts <= snapshot then last.value else Newest(versions[..|versions| - 1], snapshot)
  }

  function ReadAt(db: Db, key: Key, snapshot: nat): int {
    Newest(Versions(db.data, key), snapshot)
  }

  function Read(tx: Tx, db: Db, key: Key): int {
    if key in tx.writes then tx.writes[key] else ReadAt(db, key, tx.snapshot)
  }

  predicate HasLater(versions: seq<Version>, snapshot: nat) {
    exists i :: 0 <= i < |versions| && versions[i].ts > snapshot
  }

  ghost predicate Conflicts(db: Db, tx: Tx) {
    exists key :: key in tx.writes && HasLater(Versions(db.data, key), tx.snapshot)
  }

  function Appended(data: map<Key, seq<Version>>, writes: State, now: nat): map<Key, seq<Version>> {
    map key | key in data.Keys + writes.Keys ::
      Versions(data, key) + if key in writes then [Version(now, writes[key])] else []
  }

  function Installed(db: Db, writes: State): Db {
    Db(db.clock + 1, Appended(db.data, writes, db.clock + 1))
  }

  ghost function TryCommit(db: Db, tx: Tx): Option<Db> {
    if Conflicts(db, tx) then None else Some(Installed(db, tx.writes))
  }

  lemma AppendNone(data: map<Key, seq<Version>>, now: nat)
    ensures Appended(data, map[], now) == data
  {
    var none: State := map[];
    assert Appended(data, none, now).Keys == data.Keys;
    forall key | key in data
      ensures Appended(data, none, now)[key] == data[key]
    {
      assert Versions(data, key) + [] == data[key];
    }
  }

  lemma AppendOne(data: map<Key, seq<Version>>, writes: State, now: nat, key: Key, value: int)
    requires key !in writes
    ensures Appended(data, writes[key := value], now) ==
            var before := Appended(data, writes, now);
            before[key := Versions(before, key) + [Version(now, value)]]
  {
    var before := Appended(data, writes, now);
    assert Versions(before, key) == Versions(data, key);
    assert Appended(data, writes[key := value], now).Keys == before.Keys + {key};
  }

  predicate StampedBy(data: map<Key, seq<Version>>, now: nat) {
    forall key, i :: key in data && 0 <= i < |data[key]| ==> data[key][i].ts <= now
  }

  lemma {:induction false} NewestTail(versions: seq<Version>, i: nat, snapshot: nat)
    requires i <= |versions| && forall j :: i <= j < |versions| ==> versions[j].ts > snapshot
    ensures Newest(versions, snapshot) == Newest(versions[..i], snapshot)
    decreases |versions| - i
  {
    if i < |versions| {
      NewestTail(versions, i + 1, snapshot);
      assert versions[..i + 1][..i] == versions[..i];
    } else {
      assert versions[..i] == versions;
    }
  }

  class Store {
    var clock: nat
    var data: map<Key, seq<Version>>

    function Value(): Db
      reads this
    {
      Db(clock, data)
    }

    constructor (initial: map<Key, seq<Version>>)
      ensures Value() == Db(0, initial)
    {
      clock, data := 0, initial;
    }

    method Begin() returns (tx: Tx)
      ensures tx == Tx(clock, map[])
    {
      tx := Tx(clock, map[]);
    }

    method FindVersion(key: Key, snapshot: nat) returns (value: int)
      ensures value == ReadAt(Value(), key, snapshot)
    {
      if key in data {
        var versions := data[key];
        for i := |versions| downto 0
          invariant forall j :: i <= j < |versions| ==> versions[j].ts > snapshot
        {
          if versions[i].ts <= snapshot {
            NewestTail(versions, i + 1, snapshot);
            assert versions[..i + 1][i] == versions[i];
            return versions[i].value;
          }
        }
        NewestTail(versions, 0, snapshot);
      }
      return 0;
    }

    method ReadKey(tx: Tx, key: Key) returns (value: int)
      ensures value == Read(tx, Value(), key)
    {
      if key in tx.writes {
        return tx.writes[key];
      }
      value := FindVersion(key, tx.snapshot);
    }

    static method AnyLater(versions: seq<Version>, snapshot: nat) returns (found: bool)
      ensures found <==> HasLater(versions, snapshot)
    {
      for i := 0 to |versions|
        invariant forall j :: 0 <= j < i ==> versions[j].ts <= snapshot
      {
        if versions[i].ts > snapshot {
          return true;
        }
      }
      return false;
    }

    // commit's first loop
    method Validate(tx: Tx) returns (ok: bool)
      ensures ok <==> !Conflicts(Value(), tx)
    {
      var unchecked := tx.writes.Keys;
      while unchecked != {}
        invariant unchecked <= tx.writes.Keys
        invariant forall key :: key in tx.writes.Keys - unchecked ==> !HasLater(Versions(data, key), tx.snapshot)
        decreases |unchecked|
      {
        var key :| key in unchecked;
        if key in data {
          var later := AnyLater(data[key], tx.snapshot);
          if later {
            assert HasLater(Versions(data, key), tx.snapshot);
            return false;
          }
        }
        unchecked := unchecked - {key};
      }
      return true;
    }

    // commit's second loop
    method Append(writes: State, now: nat)
      modifies `data
      ensures data == Appended(old(data), writes, now)
    {
      var unwritten := writes.Keys;
      ghost var written: State := map[];
      AppendNone(data, now);
      while unwritten != {}
        invariant unwritten <= writes.Keys && written.Keys == writes.Keys - unwritten
        invariant forall key :: key in written ==> written[key] == writes[key]
        invariant data == Appended(old(data), written, now)
        decreases |unwritten|
      {
        var key :| key in unwritten;
        AppendOne(old(data), written, now, key, writes[key]);
        data := data[key := Versions(data, key) + [Version(now, writes[key])]];
        unwritten := unwritten - {key};
        written := written[key := writes[key]];
        assert data == Appended(old(data), written, now);
      }
      assert written == writes;
    }

    method Commit(tx: Tx) returns (ok: bool)
      modifies this
      ensures ok <==> !Conflicts(old(Value()), tx)
      ensures Value() == if ok then TryCommit(old(Value()), tx).value else old(Value())
    {
      ok := Validate(tx);
      if ok {
        clock := clock + 1;
        Append(tx.writes, clock);
      }
    }

    /** Retries until the commit is accepted; with no rival, the first attempt is. */
    method DepositAlone(key: Key, amount: int)
      requires StampedBy(data, clock)
      modifies this
      ensures Value() == Installed(old(Value()), map[key := old(ReadAt(Value(), key, clock)) + amount])
    {
      var done := false;
      while !done
        invariant if done then Value() == Installed(old(Value()), map[key := old(ReadAt(Value(), key, clock)) + amount])
                  else Value() == old(Value())
        decreases !done
      {
        var tx := Begin();
        var balance := ReadKey(tx, key);
        tx := tx.(writes := tx.writes[key := balance + amount]);
        NoRival(Value(), tx);
        assert tx.writes == map[key := balance + amount];
        done := Commit(tx);
      }
    }
  }

  lemma NoRival(db: Db, tx: Tx)
    requires StampedBy(db.data, db.clock) && db.clock <= tx.snapshot
    ensures !Conflicts(db, tx)
  {
  }

  /** A commit adds a snapshot, the newest one with the writes laid over it, and changes none. */
  lemma CommitReadsAt(db: Db, writes: State, key: Key, n: nat)
    requires StampedBy(db.data, db.clock) && n <= db.clock + 1
    ensures ReadAt(Installed(db, writes), key, n) ==
            if n <= db.clock then ReadAt(db, key, n)
            else if key in writes then writes[key]
            else ReadAt(db, key, db.clock)
  {
    InstalledVersions(db, writes, key);
    if n <= db.clock {
      NewestBefore(Versions(db.data, key), db.clock + 1, if key in writes then writes[key] else 0, n);
    } else {
      NewestNow(Versions(db.data, key), db.clock);
    }
  }

  lemma InstalledVersions(db: Db, writes: State, key: Key)
    ensures Versions(Installed(db, writes).data, key) ==
            Versions(db.data, key) + if key in writes then [Version(db.clock + 1, writes[key])] else []
  {
  }

  lemma InstalledStamps(db: Db, writes: State)
    requires StampedBy(db.data, db.clock)
    ensures StampedBy(Installed(db, writes).data, db.clock + 1)
  {
  }

  lemma NewestBefore(versions: seq<Version>, now: nat, value: int, snapshot: nat)
    requires snapshot < now
    ensures Newest(versions + [Version(now, value)], snapshot) == Newest(versions, snapshot)
    ensures Newest(versions + [], snapshot) == Newest(versions, snapshot)
  {
    assert (versions + [Version(now, value)])[..|versions|] == versions;
    assert versions + [] == versions;
  }

  lemma NewestNow(versions: seq<Version>, now: nat)
    requires forall i :: 0 <= i < |versions| ==> versions[i].ts <= now
    ensures Newest(versions, now + 1) == Newest(versions, now)
  {
  }
}
