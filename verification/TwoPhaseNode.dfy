/** A participant of two-phase commit, with its state file, and the coordinator's tally of votes. */
module TwoPhaseNode {
  import opened Options

  /** A YES that still waits for its verdict. */
  datatype Promise = Promise(txid: nat, delta: int)

  datatype Account = Account(balance: int, prepared: Option<Promise>)

  datatype Request = Prepare(txid: nat, delta: int) | Commit(txid: nat) | Abort(txid: nat)

  datatype Reply = Vote(txid: nat, yes: bool) | Ack(txid: nat)

  const OPENING_BALANCE := 100

  /** What a participant starts from: its state file, or the opening balance when there is none. */
  function Load(file: Option<Account>): Account {
    match file
    case Some(account) => account
    case None => Account(OPENING_BALANCE, None)
  }

  predicate CanPromise(a: Account, delta: int) {
    a.balance + delta >= 0 && a.prepared.None?
  }

  predicate Awaits(a: Account, txid: nat) {
    a.prepared.Some? && a.prepared.value.txid == txid
  }

  function Handle(a: Account, request: Request): Account {
    match request
    case Prepare(txid, delta) => if CanPromise(a, delta) then a.(prepared := Some(Promise(txid, delta))) else a
    case Commit(txid) => if Awaits(a, txid) then Account(a.balance + a.prepared.value.delta, None) else a
    case Abort(txid) => if Awaits(a, txid) then a.(prepared := None) else a
  }

  function Answer(a: Account, request: Request): Reply {
    match request
    case Prepare(txid, delta) => Vote(txid, CanPromise(a, delta))
    case Commit(txid) => Ack(txid)
    case Abort(txid) => Ack(txid)
  }

  class Participant {
    var balance: int
    var prepared: Option<Promise>
    var file: Option<Account>

    function State(): Account
      reads this
    {
      Account(balance, prepared)
    }

    /** A restart would lose nothing. */
    ghost predicate Durable()
      reads this
    {
      Load(file) == State()
    }

    constructor (found: Option<Account>)
      ensures file == found && State() == Load(found) && Durable()
    {
      var account := Load(found);
      balance, prepared, file := account.balance, account.prepared, found;
    }

    method Persist()
      modifies `file
      ensures Durable()
    {
      file := Some(Account(balance, prepared));
    }

    method OnPrepare(txid: nat, delta: int) returns (reply: Reply)
      requires Durable()
      modifies this
      ensures Durable()
      ensures State() == Handle(old(State()), Prepare(txid, delta))
      ensures reply == Answer(old(State()), Prepare(txid, delta))
    {
      var vote := false;
      if balance + delta >= 0 && prepared.None? {
        prepared := Some(Promise(txid, delta));
        Persist();
        vote := true;
      }
      reply := Vote(txid, vote);
    }

    method OnCommit(txid: nat) returns (reply: Reply)
      requires Durable()
      modifies this
      ensures Durable()
      ensures State() == Handle(old(State()), Commit(txid))
      ensures reply == Answer(old(State()), Commit(txid))
    {
      if prepared.Some? {
        var Promise(promised, delta) := prepared.value;
        if promised == txid {
          balance := balance + delta;
          prepared := None;
          Persist();
        }
      }
      reply := Ack(txid);
    }

    method OnAbort(txid: nat) returns (reply: Reply)
      requires Durable()
      modifies this
      ensures Durable()
      ensures State() == Handle(old(State()), Abort(txid))
      ensures reply == Answer(old(State()), Abort(txid))
    {
      if prepared.Some? && prepared.value.txid == txid {
        prepared := None;
        Persist();
      }
      reply := Ack(txid);
    }
  }

  /** The delta of a participant; participants beyond the list get none. */
  function Delta(deltas: seq<int>, p: nat): int {
    if p < |deltas| then deltas[p] else 0
  }

  /** The coordinator's decision from the replies it read, one per participant, None when a call failed. */
  method Tally(txid: nat, replies: seq<Option<Reply>>) returns (commit: bool)
    ensures commit <==> forall i :: 0 <= i < |replies| ==> replies[i] == Some(Vote(txid, true))
  {
    commit := true;
    for i := 0 to |replies|
      invariant commit <==> forall j :: 0 <= j < i ==> replies[j] == Some(Vote(txid, true))
    {
      if replies[i] != Some(Vote(txid, true)) {
        commit := false;
      }
    }
  }
}
