/**
  The optimistic engine: versioned entries, transactions that record the versions they read, and the validating
  commit.
  */
module Occ {
  import opened Transactions

  datatype Entry = Entry(version: nat, value: int)
  type Db = map<Key, Entry>

  /** The versions of the keys read from the store, and the drafted writes. */
  datatype Tx = Tx(versions: map<Key, nat>, writes: State)

  function Lookup(db: Db, key: Key): Entry {
    if key in db then db[key] else Entry(0, 0)
  }

  function StateOf(db: Db): State {
    map key | key in db :: db[key].value
  }

  function ReadTx(tx: Tx, db: Db, key: Key): Tx {
    if key in tx.writes then tx else tx.(versions := tx.versions[key := Lookup(db, key).version])
  }

  function ReadValue(tx: Tx, db: Db, key: Key): int {
    if key in tx.writes then tx.writes[key] else Lookup(db, key).value
  }

  /** The commit's check; a recorded key that the store does not hold is passed over. */
  predicate Validates(db: Db, versions: map<Key, nat>) {
    forall key :: key in versions && key in db ==> db[key].version == versions[key]
  }

  function Installed(db: Db, writes: State): Db {
    map key | key in db.Keys + writes.Keys ::
      if key in writes then Entry(Lookup(db, key).version + 1, writes[key]) else db[key]
  }

  lemma InstallNone(db: Db)
    ensures Installed(db, map[]) == db
  {
  }

  lemma InstallOne(db: Db, writes: State, key: Key, value: int)
    requires key !in writes
    ensures Installed(db, writes[key := value]) ==
            var before := Installed(db, writes);
            before[key := Entry(Lookup(before, key).version + 1, value)]
  {
    assert Installed(db, writes[key := value]).Keys == Installed(db, writes).Keys + {key};
  }

  class Store {
    var entries: map<Key, Entry>

    constructor (initial: map<Key, Entry>)
      ensures entries == initial
    {
      entries := initial;
    }

    method Read(tx: Tx, key: Key) returns (tx': Tx, value: int)
      ensures tx' == ReadTx(tx, entries, key) && value == ReadValue(tx, entries, key)
    {
      if key in tx.writes {
        return tx, tx.writes[key];
      }
      var entry := if key in entries then entries[key] else Entry(0, 0);
      tx' := tx.(versions := tx.versions[key := entry.version]);
      value := entry.value;
    }

    // commit's first loop
    method Validate(versions: map<Key, nat>) returns (ok: bool)
      ensures ok <==> Validates(entries, versions)
    {
      var unchecked := versions.Keys;
      while unchecked != {}
        invariant unchecked <= versions.Keys
        invariant forall key :: key in versions.Keys - unchecked && key in entries ==>
            entries[key].version == versions[key]
        decreases |unchecked|
      {
        var key :| key in unchecked;
        if key in entries && entries[key].version != versions[key] {
          return false;
        }
        unchecked := unchecked - {key};
      }
      return true;
    }

    // commit's second loop
    method Install(writes: State)
      modifies this
      ensures entries == Installed(old(entries), writes)
    {
      var unwritten := writes.Keys;
      ghost var written: State := map[];
      InstallNone(entries);
      while unwritten != {}
        invariant unwritten <= writes.Keys && written.Keys == writes.Keys - unwritten
        invariant forall key :: key in written ==> written[key] == writes[key]
        invariant entries == Installed(old(entries), written)
        decreases |unwritten|
      {
        var key :| key in unwritten;
        InstallOne(old(entries), written, key, writes[key]);
        var entry := if key in entries then entries[key] else Entry(0, 0);
        entries := entries[key := Entry(entry.version + 1, writes[key])];
        unwritten := unwritten - {key};
        written := written[key := writes[key]];
      }
      assert written == writes;
    }

    method Commit(tx: Tx) returns (ok: bool)
      modifies this
      ensures ok <==> Validates(old(entries), tx.versions)
      ensures entries == if ok then Installed(old(entries), tx.writes) else old(entries)
    {
      ok := Validate(tx.versions);
      if ok {
        Install(tx.writes);
      }
    }
  }

  lemma InstalledState(db: Db, writes: State)
    ensures StateOf(Installed(db, writes)) == StateOf(db) + writes
  {
  }

  lemma InstalledLookup(db: Db, writes: State, key: Key)
    ensures Lookup(Installed(db, writes), key) ==
            if key in writes then Entry(Lookup(db, key).version + 1, writes[key]) else Lookup(db, key)
  {
  }
}
