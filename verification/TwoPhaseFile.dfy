/** The participant's state file. */
module TwoPhaseFile {
  import opened Options
  import opened Text
  import opened RaftWire
  import opened StateFiles
  import opened TwoPhaseNode

  function PreparedText(prepared: Option<Promise>): string {
    match prepared
    case Some(p) => Decimal(p.txid) + " " + IntText(p.delta)
    case None => "-"
  }

  function FileText(a: Account): string {
    Written(["balance " + IntText(a.balance), "prepared " + PreparedText(a.prepared)])
  }

  /** What reading the lines has found so far. Halted: the program panics. */
  datatype Found = Found(balance: int, prepared: Option<Promise>, sawBalance: bool) | Halted

  const NOTHING := Found(OPENING_BALANCE, None, false)

  function ParsePrepared(v: string, was: Option<Promise>): Option<Promise> {
    if v == "-" then was else
    var words := Words(v);
    if |words| < 2 then was else
    match (ParseU64(words[0]), ParseI64(words[1]))
    case (Some(txid), Some(delta)) => Some(Promise(txid, delta))
    case _ => was
  }

  function ReadLine(found: Found, line: string): Found {
    if found.Halted? then Halted else
    match StripPrefix(line, "balance ")
    case Some(v) =>
      (match ParseI64(v)
       case Some(balance) => found.(balance := balance, sawBalance := true)
       case None => Halted)
    case None =>
      match StripPrefix(line, "prepared ")
      case Some(v) => found.(prepared := ParsePrepared(v, found.prepared))
      case None => found
  }

  function ReadLines(found: Found, lines: seq<string>): Found {
    if lines == [] then found else ReadLine(ReadLines(found, lines[..|lines| - 1]), lines[|lines| - 1])
  }

  /** The account in a file, or None when the participant refuses to start from it. */
  function Parse(data: string): Option<Account> {
    match ReadLines(NOTHING, Lines(data))
    case Halted => None
    case Found(balance, prepared, saw) => if saw then Some(Account(balance, prepared)) else None
  }

  method LoadFile(data: string) returns (account: Option<Account>)
    ensures account == Parse(data)
  {
    var lines := Lines(data);
    var balance, prepared, sawBalance := OPENING_BALANCE, None, false;
    for i := 0 to |lines|
      invariant ReadLines(NOTHING, lines[..i]) == Found(balance, prepared, sawBalance)
    {
      assert lines[..i + 1][..i] == lines[..i];
      var b := StripPrefix(lines[i], "balance ");
      if b.Some? {
        var parsed := ParseI64(b.value);
        if parsed.None? {
          HaltedStays(lines, i + 1);
          return None;
        }
        balance, sawBalance := parsed.value, true;
      } else {
        var p := StripPrefix(lines[i], "prepared ");
        if p.Some? && p.value != "-" {
          prepared := ParsePrepared(p.value, prepared);
        }
      }
    }
    assert lines[..|lines|] == lines;
    if !sawBalance {
      return None;
    }
    account := Some(Account(balance, prepared));
  }

  lemma {:induction false} HaltedStays(lines: seq<string>, i: nat)
    requires i <= |lines| && ReadLines(NOTHING, lines[..i]).Halted?
    ensures ReadLines(NOTHING, lines).Halted?
    decreases |lines| - i
  {
    if i < |lines| {
      assert lines[..i + 1][..i] == lines[..i];
      HaltedStays(lines, i + 1);
    } else {
      assert lines[..i] == lines;
    }
  }

  predicate Fits(a: Account) {
    && -I64_LIMIT <= a.balance < I64_LIMIT
    && (a.prepared.Some? ==> a.prepared.value.txid < U64_LIMIT && -I64_LIMIT <= a.prepared.value.delta < I64_LIMIT)
  }

  lemma PromiseParses(p: Promise)
    requires p.txid < U64_LIMIT && -I64_LIMIT <= p.delta < I64_LIMIT
    ensures Words(PreparedText(Some(p))) == [Decimal(p.txid), IntText(p.delta)] && PreparedText(Some(p)) != "-"
    ensures ParseU64(Decimal(p.txid)) == Some(p.txid) && ParseI64(IntText(p.delta)) == Some(p.delta)
  {
    NatParses(p.txid);
    IntParses(p.delta);
    TwoWords(Decimal(p.txid), IntText(p.delta));
    assert PreparedText(Some(p))[|Decimal(p.txid)|] == ' ';
  }

  lemma PromiseLine(p: Promise)
    requires p.txid < U64_LIMIT && -I64_LIMIT <= p.delta < I64_LIMIT
    ensures OneLine("prepared " + PreparedText(Some(p)))
  {
    NumbersAreLines(p.txid);
    NumbersAreLines(p.delta);
    LineAfterThree("prepared ", Decimal(p.txid), " ", IntText(p.delta));
  }

  lemma LineAfterThree(a: string, b: string, c: string, line: string)
    requires NEW_LINE !in a && NEW_LINE !in b && NEW_LINE !in c && OneLine(line) && line != ""
    ensures OneLine(a + (b + c + line))
  {
    LineAfter(a + b + c, line);
    assert a + (b + c + line) == a + b + c + line;
  }

  lemma PreparedParses(prepared: Option<Promise>)
    requires prepared.Some? ==> prepared.value.txid < U64_LIMIT && -I64_LIMIT <= prepared.value.delta < I64_LIMIT
    ensures ParsePrepared(PreparedText(prepared), None) == prepared && OneLine("prepared " + PreparedText(prepared))
  {
    if prepared.Some? {
      PromiseParses(prepared.value);
      PromiseLine(prepared.value);
    }
  }

  lemma BalanceLine(balance: int)
    requires -I64_LIMIT <= balance < I64_LIMIT
    ensures OneLine("balance " + IntText(balance))
  {
    NumbersAreLines(balance);
    LineAfter("balance ", IntText(balance));
  }

  /** What was written is what a restart reads. */
  lemma FileRoundTrip(a: Account)
    requires Fits(a)
    ensures Parse(FileText(a)) == Some(a)
  {
    var first, second := "balance " + IntText(a.balance), "prepared " + PreparedText(a.prepared);
    BalanceLine(a.balance);
    PreparedParses(a.prepared);
    WrittenLines([first, second]);
    ReadsBalance(NOTHING, a.balance);
    ReadsPrepared(Found(a.balance, None, true), a.prepared);
    ReadTwo(NOTHING, first, second);
  }

  lemma ReadTwo(found: Found, first: string, second: string)
    ensures ReadLines(found, [first, second]) == ReadLine(ReadLine(found, first), second)
  {
    assert [first, second][..1] == [first] && [first][..0] == [];
    assert ReadLines(found, [first]) == ReadLine(found, first);
  }

  lemma ReadsBalance(found: Found, balance: int)
    requires found.Found? && -I64_LIMIT <= balance < I64_LIMIT
    ensures ReadLine(found, "balance " + IntText(balance)) == found.(balance := balance, sawBalance := true)
  {
    IntParses(balance);
    Stripped("balance ", IntText(balance));
  }

  lemma ReadsPrepared(found: Found, prepared: Option<Promise>)
    requires found.Found? && found.prepared.None? && ParsePrepared(PreparedText(prepared), None) == prepared
    ensures ReadLine(found, "prepared " + PreparedText(prepared)) == found.(prepared := prepared)
  {
    var line := "prepared " + PreparedText(prepared);
    Stripped("prepared ", PreparedText(prepared));
    assert line[0] == 'p' && "balance "[0] == 'b';
  }

  ghost predicate BalanceAt(lines: seq<string>, i: nat)
    requires i < |lines|
  {
    "balance " <= lines[i]
  }

  /**
    A damaged file never resets the money: a participant starts from a file exactly when it
    has a balance line and every balance line parses, and then with the last one's balance.
    */
  lemma {:induction false} StartsExactly(lines: seq<string>)
    ensures ReadLines(NOTHING, lines).Halted? <==>
            exists i: nat :: i < |lines| && BalanceAt(lines, i) && ParseI64(lines[i][8..]).None?
    ensures ReadLines(NOTHING, lines).Found? ==>
              (ReadLines(NOTHING, lines).sawBalance <==> exists i: nat :: i < |lines| && BalanceAt(lines, i))
    ensures ReadLines(NOTHING, lines).Found? && ReadLines(NOTHING, lines).sawBalance ==>
              exists i: nat :: i < |lines| && BalanceAt(lines, i)
                               && ParseI64(lines[i][8..]) == Some(ReadLines(NOTHING, lines).balance)
                && forall j: nat :: i < j < |lines| ==> !BalanceAt(lines, j)
  {
    if lines != [] {
      var n := |lines| - 1;
      var front := lines[..n];
      StartsExactly(front);
      assert forall i: nat :: i < n ==> (BalanceAt(front, i) <==> BalanceAt(lines, i)) && front[i] == lines[i];
      assert BalanceAt(lines, n) <==> StripPrefix(lines[n], "balance ").Some?;
      if ReadLines(NOTHING, front).Halted? {
        var i: nat :| i < |front| && BalanceAt(front, i) && ParseI64(front[i][8..]).None?;
        assert BalanceAt(lines, i) && ParseI64(lines[i][8..]).None?;
      }
    }
  }

  /** The line names a promise. */
  predicate SaysPromise(line: string, promise: Promise) {
    "prepared " <= line
    && var words := Words(line[9..]);
       |words| >= 2 && ParseU64(words[0]) == Some(promise.txid) && ParseI64(words[1]) == Some(promise.delta)
  }

  ghost predicate Silent(line: string) {
    forall promise :: !SaysPromise(line, promise)
  }

  ghost predicate SilentAfter(lines: seq<string>, i: int) {
    forall j :: 0 <= j < |lines| && i < j ==> Silent(lines[j])
  }

  lemma OneLinePromise(was: Option<Promise>, line: string)
    ensures var now := (match StripPrefix(line, "prepared ") case Some(v) => ParsePrepared(v, was) case None => was);
            && (Silent(line) ==> now == was)
            && forall promise :: SaysPromise(line, promise) ==> now == Some(promise)
  {
    var now := (match StripPrefix(line, "prepared ") case Some(v) => ParsePrepared(v, was) case None => was);
    OneWordOnly("-");
    if now != was {
      assert SaysPromise(line, now.value);
    }
  }

  lemma BalanceSaysNothing(line: string)
    requires "balance " <= line
    ensures Silent(line) && !("prepared " <= line)
  {
    assert "balance "[0] == 'b' && "prepared "[0] == 'p';
  }

  lemma ReadLinePromise(found: Found, line: string)
    requires found.Found? && ReadLine(found, line).Found?
    ensures var now := ReadLine(found, line).prepared;
            && (Silent(line) ==> now == found.prepared)
            && forall promise :: SaysPromise(line, promise) ==> now == Some(promise)
  {
    OneLinePromise(found.prepared, line);
    if "balance " <= line {
      BalanceSaysNothing(line);
    }
  }

  lemma SilentFront(lines: seq<string>, i: int)
    requires lines != [] && i < |lines| - 1 && SilentAfter(lines, i)
    ensures SilentAfter(lines[..|lines| - 1], i) && Silent(lines[|lines| - 1])
  {
    var front := lines[..|lines| - 1];
    assert forall j :: 0 <= j < |front| ==> front[j] == lines[j];
  }

  /** The participant starts with the promise the last line that names one names, and with none when no line does. */
  lemma {:induction false} PromiseExactly(lines: seq<string>)
    requires ReadLines(NOTHING, lines).Found?
    ensures var prepared := ReadLines(NOTHING, lines).prepared;
            && (SilentAfter(lines, -1) ==> prepared == None)
            && forall i, promise :: 0 <= i < |lines| && SaysPromise(lines[i], promise) && SilentAfter(lines, i) ==>
                 prepared == Some(promise)
  {
    if lines != [] {
      var n := |lines| - 1;
      var front := lines[..n];
      PromiseExactly(front);
      ReadLinePromise(ReadLines(NOTHING, front), lines[n]);
      if SilentAfter(lines, -1) {
        SilentFront(lines, -1);
      }
      forall i, promise | 0 <= i < |lines| && SaysPromise(lines[i], promise) && SilentAfter(lines, i)
        ensures ReadLines(NOTHING, lines).prepared == Some(promise)
      {
        if i < n {
          SilentFront(lines, i);
          assert front[i] == lines[i];
        }
      }
    }
  }
}
