/** Account states and transaction programs, shared by the two concurrency-control engines. */
module Transactions {
  import opened Options

  type Key = string
  type State = map<Key, int>

  /** What a transaction does next. Commit tries to commit; Quit returns without trying. */
  datatype Action = Get(key: Key) | Put(key: Key, value: int) | Commit | Quit

  /**
    A transaction's code: its next action, given the result of each action so far.
    A Get's result is the value read; a Put's result is of no interest and is 0.
    */
  type Program = seq<int> -> Action

  /** An absent key reads as zero. */
  function Balance(state: State, key: Key): int {
    if key in state then state[key] else 0
  }

  /** The writes a program has drafted after the given results. */
  ghost function Drafts(prog: Program, results: seq<int>): State {
    if results == [] then map[] else
    var front := results[..|results| - 1];
    match prog(front)
    case Put(key, value) => Drafts(prog, front)[key := value]
    case _ => Drafts(prog, front)
  }

  /** The key that action i reads from the store; a key drafted before is read from the draft. */
  ghost function StoreRead(prog: Program, results: seq<int>, i: nat): Option<Key>
    requires i < |results|
  {
    match prog(results[..i])
    case Get(key) => if key in Drafts(prog, results[..i]) then None else Some(key)
    case _ => None
  }

  /** The result of action i, when the store is in the given state. */
  ghost function Expected(prog: Program, results: seq<int>, i: nat, state: State): int
    requires i < |results|
  {
    match prog(results[..i])
    case Get(key) =>
      if key in Drafts(prog, results[..i]) then Drafts(prog, results[..i])[key] else Balance(state, key)
    case _ => 0
  }

  /** The results are those of running the program alone on one state. */
  ghost predicate Sees(prog: Program, results: seq<int>, state: State) {
    forall i: nat :: i < |results| ==> results[i] == Expected(prog, results, i, state)
  }

  ghost predicate Stops(prog: Program, results: seq<int>) {
    && prog(results) in {Commit, Quit}
    && forall i: nat :: i < |results| ==> prog(results[..i]) !in {Commit, Quit}
  }

  lemma StopsBy(prog: Program, results: seq<int>, n: nat)
    requires Stops(prog, results)
    ensures |results| > n ==> prog(results[..n]) !in {Commit, Quit}
  {
  }

  /** Running alone on a state is deterministic: at most one sequence of results does it. */
  lemma {:induction false} RunsAloneOneWay(prog: Program, a: seq<int>, b: seq<int>, state: State)
    requires Sees(prog, a, state) && Sees(prog, b, state) && Stops(prog, a) && Stops(prog, b)
    ensures a == b
  {
    AgreeUpTo(prog, a, b, state, if |a| <= |b| then |a| else |b|);
    assert a[..|a|] == a && b[..|b|] == b;
  }

  lemma {:induction false} AgreeUpTo(prog: Program, a: seq<int>, b: seq<int>, state: State, n: nat)
    requires Sees(prog, a, state) && Sees(prog, b, state) && n <= |a| && n <= |b|
    ensures a[..n] == b[..n]
  {
    if n > 0 {
      AgreeUpTo(prog, a, b, state, n - 1);
      assert a[n - 1] == Expected(prog, a, n - 1, state) == b[n - 1];
    }
  }

  /** One more result keeps what the earlier ones were. */
  lemma {:induction false} SeesMore(prog: Program, results: seq<int>, state: State, result: int)
    requires Sees(prog, results, state)
    requires result == Expected(prog, results + [result], |results|, state)
    ensures Sees(prog, results + [result], state)
  {
    var more := results + [result];
    forall i: nat | i < |more|
      ensures more[i] == Expected(prog, more, i, state)
    {
      if i < |results| {
        assert more[..i] == results[..i];
        assert results[i] == Expected(prog, results, i, state);
      }
    }
  }

  lemma DraftsMore(prog: Program, results: seq<int>, result: int)
    ensures Drafts(prog, results + [result]) ==
            match prog(results)
            case Put(key, value) => Drafts(prog, results)[key := value]
            case _ => Drafts(prog, results)
  {
    assert (results + [result])[..|results + [result]| - 1] == results;
  }

  // ----------------------------------------------------------- the programs run

  /** Reads a balance and writes it back with the amount added. */
  function Deposit(key: Key, amount: int): Program {
    (results: seq<int>) =>
      if |results| == 0 then Get(key)
      else if |results| == 1 then Put(key, results[0] + amount)
      else Commit
  }

  /** Moves an amount, when the first balance covers it. */
  function Transfer(from: Key, to: Key, amount: int): Program {
    (results: seq<int>) =>
      if |results| == 0 then Get(from)
      else if results[0] < amount then Quit
      else if |results| == 1 then Get(to)
      else if |results| == 2 then Put(from, results[0] - amount)
      else if |results| == 3 then Put(to, results[1] + amount)
      else Commit
  }

  /** Moves an amount whatever the balances are. */
  function Move(from: Key, to: Key, amount: int): Program {
    (results: seq<int>) =>
      if |results| == 0 then Get(from)
      else if |results| == 1 then Get(to)
      else if |results| == 2 then Put(from, results[0] - amount)
      else if |results| == 3 then Put(to, results[1] + amount)
      else Commit
  }

  /** Reads two balances; the versioned engine commits the audit and the other only prints it. */
  function Audit(x: Key, y: Key, end: Action): Program {
    (results: seq<int>) =>
      if |results| == 0 then Get(x)
      else if |results| == 1 then Get(y)
      else end
  }

  lemma DepositDrafts(key: Key, amount: int, results: seq<int>, state: State)
    requires Sees(Deposit(key, amount), results, state) && Stops(Deposit(key, amount), results)
    ensures Drafts(Deposit(key, amount), results) == map[key := Balance(state, key) + amount]
  {
    var prog := Deposit(key, amount);
    StopsBy(prog, results, 2);
    TwoSteps(prog, results, key, amount, state);
  }

  lemma TwoSteps(prog: Program, results: seq<int>, key: Key, amount: int, state: State)
    requires Sees(prog, results, state) && |results| == 2
    requires prog([]) == Get(key) && prog(results[..1]) == Put(key, results[0] + amount)
    ensures Drafts(prog, results) == map[key := Balance(state, key) + amount]
  {
    assert results[..0] == [];
    assert results[..1] == [] + [results[0]];
    assert results == results[..1] + [results[1]];
    DraftsMore(prog, [], results[0]);
    DraftsMore(prog, results[..1], results[1]);
    assert results[0] == Expected(prog, results, 0, state);
  }

  /** What a program of four steps Get, Get, Put, Put drafts; the second write wins when the keys are equal. */
  lemma FourSteps(prog: Program, results: seq<int>, from: Key, to: Key, amount: int, state: State)
    requires Sees(prog, results, state) && |results| == 4
    requires prog([]) == Get(from) && prog(results[..1]) == Get(to)
    requires prog(results[..2]) == Put(from, results[0] - amount)
    requires prog(results[..3]) == Put(to, results[1] + amount)
    ensures results[0] == Balance(state, from)
    ensures Drafts(prog, results) ==
            map[from := Balance(state, from) - amount][to := Balance(state, to) + amount]
  {
    assert results[..0] == [];
    assert results[..1] == [] + [results[0]];
    assert results[..2] == results[..1] + [results[1]];
    assert results[..3] == results[..2] + [results[2]];
    assert results == results[..3] + [results[3]];
    DraftsMore(prog, [], results[0]);
    DraftsMore(prog, results[..1], results[1]);
    DraftsMore(prog, results[..2], results[2]);
    DraftsMore(prog, results[..3], results[3]);
    assert results[0] == Expected(prog, results, 0, state);
    assert results[1] == Expected(prog, results, 1, state);
  }

  lemma TransferDrafts(from: Key, to: Key, amount: int, results: seq<int>, state: State)
    requires Sees(Transfer(from, to, amount), results, state) && Stops(Transfer(from, to, amount), results)
    requires Transfer(from, to, amount)(results) == Commit
    ensures Balance(state, from) >= amount
    ensures Drafts(Transfer(from, to, amount), results) ==
            map[from := Balance(state, from) - amount][to := Balance(state, to) + amount]
  {
    var prog := Transfer(from, to, amount);
    StopsBy(prog, results, 4);
    FourSteps(prog, results, from, to, amount, state);
  }

  /** A transfer that has run to its end goes on to commit exactly when the first balance covers the amount. */
  lemma TransferCommitsExactly(from: Key, to: Key, amount: int, results: seq<int>, state: State)
    requires Sees(Transfer(from, to, amount), results, state) && Stops(Transfer(from, to, amount), results)
    ensures Transfer(from, to, amount)(results) == if Balance(state, from) >= amount then Commit else Quit
  {
    var prog := Transfer(from, to, amount);
    StopsBy(prog, results, 0);
    assert results[..0] == [];
    assert results[0] == Expected(prog, results, 0, state);
  }

  /** On every state it does run to its end. */
  lemma TransferEnds(from: Key, to: Key, amount: int, state: State) returns (results: seq<int>)
    ensures Sees(Transfer(from, to, amount), results, state) && Stops(Transfer(from, to, amount), results)
  {
    var prog := Transfer(from, to, amount);
    var none: seq<int> := [];
    SeesMore(prog, none, state, Balance(state, from));
    results := none + [Balance(state, from)];
    if Balance(state, from) >= amount {
      SecondStep(prog, results, to, state);
      results := results + [Balance(state, to)] + [0] + [0];
      assert results == [Balance(state, from), Balance(state, to), 0, 0];
      assert forall i: nat :: i < 4 ==> prog(results[..i]) !in {Commit, Quit};
    }
  }

  lemma SecondStep(prog: Program, results: seq<int>, key: Key, state: State)
    requires |results| == 1 && Sees(prog, results, state) && prog([]).Get? && prog(results) == Get(key)
    requires prog(results + [Balance(state, key)]).Put? && prog(results + [Balance(state, key)] + [0]).Put?
    ensures Sees(prog, results + [Balance(state, key)] + [0] + [0], state)
  {
    var two := results + [Balance(state, key)];
    DraftsMore(prog, [], results[0]);
    assert [] + [results[0]] == results && two[..1] == results;
    SeesMore(prog, results, state, Balance(state, key));
    assert (two + [0])[..2] == two;
    SeesMore(prog, two, state, 0);
    assert (two + [0] + [0])[..3] == two + [0];
    SeesMore(prog, two + [0], state, 0);
  }

  lemma MoveDrafts(from: Key, to: Key, amount: int, results: seq<int>, state: State)
    requires Sees(Move(from, to, amount), results, state) && Stops(Move(from, to, amount), results)
    ensures Drafts(Move(from, to, amount), results) ==
            map[from := Balance(state, from) - amount][to := Balance(state, to) + amount]
  {
    var prog := Move(from, to, amount);
    StopsBy(prog, results, 4);
    FourSteps(prog, results, from, to, amount, state);
  }

  lemma AuditSees(x: Key, y: Key, end: Action, results: seq<int>, state: State)
    requires end in {Commit, Quit}
    requires Sees(Audit(x, y, end), results, state) && Stops(Audit(x, y, end), results)
    ensures results == [Balance(state, x), Balance(state, y)]
    ensures Drafts(Audit(x, y, end), results) == map[]
  {
    var prog := Audit(x, y, end);
    StopsBy(prog, results, 2);
    assert results[..1] == [] + [results[0]];
    assert results == results[..1] + [results[1]];
    DraftsMore(prog, [], results[0]);
    DraftsMore(prog, results[..1], results[1]);
    assert results[0] == Expected(prog, results, 0, state);
    assert results[1] == Expected(prog, results, 1, state);
  }

  // --------------------------------------------------------------------- totals

  predicate Distinct(accounts: seq<Key>) {
    forall i, j :: 0 <= i < j < |accounts| ==> accounts[i] != accounts[j]
  }

  function Total(state: State, accounts: seq<Key>): int {
    if accounts == [] then 0 else Balance(state, accounts[0]) + Total(state, accounts[1..])
  }

  lemma {:induction false} TotalAfterPut(state: State, accounts: seq<Key>, key: Key, value: int)
    requires Distinct(accounts)
    ensures Total(state[key := value], accounts) ==
            Total(state, accounts) + if key in accounts then value - Balance(state, key) else 0
  {
    if accounts != [] {
      TotalAfterPut(state, accounts[1..], key, value);
    }
  }

  /** A transfer moves money, except one from an account to itself, which creates the amount. */
  lemma TotalAfterTransfer(state: State, accounts: seq<Key>, from: Key, to: Key, amount: int)
    requires Distinct(accounts) && from in accounts && to in accounts
    ensures Total(state + map[from := Balance(state, from) - amount][to := Balance(state, to) + amount], accounts) ==
            Total(state, accounts) + if from == to then amount else 0
  {
    var less := state[from := Balance(state, from) - amount];
    TotalAfterPut(state, accounts, from, Balance(state, from) - amount);
    TotalAfterPut(less, accounts, to, Balance(state, to) + amount);
    assert state + map[from := Balance(state, from) - amount][to := Balance(state, to) + amount]
        == less[to := Balance(state, to) + amount];
  }

  lemma TotalAfterDeposit(state: State, accounts: seq<Key>, key: Key, amount: int)
    requires Distinct(accounts) && key in accounts
    ensures Total(state + map[key := Balance(state, key) + amount], accounts) == Total(state, accounts) + amount
  {
    TotalAfterPut(state, accounts, key, Balance(state, key) + amount);
    assert state + map[key := Balance(state, key) + amount] == state[key := Balance(state, key) + amount];
  }

  // ---------------------------------------------------------------- after some commits

  /** The balances after the first n commits' writes. */
  ghost function StateAt<D(!new)>(writes: D -> State, initial: State, commits: seq<D>, n: nat): State
    requires n <= |commits|
  {
    if n == 0 then initial else StateAt(writes, initial, commits, n - 1) + writes(commits[n - 1])
  }

  lemma {:induction false} StateAtStable<D(!new)>(writes: D -> State, initial: State, commits: seq<D>, more: seq<D>,
                                           n: nat)
    requires n <= |commits|
    ensures StateAt(writes, initial, commits + more, n) == StateAt(writes, initial, commits, n)
  {
    if n > 0 {
      StateAtStable(writes, initial, commits, more, n - 1);
    }
  }
}
