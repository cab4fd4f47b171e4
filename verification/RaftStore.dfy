/** What the replicated store holds, command by command, and what a leader answers from it. */
module RaftStore {
  import opened Options
  import opened Text
  import opened RaftNode
  import opened RaftSystem
  import opened RaftSafety
  import opened RaftTheorems

  /** The command is a `set` of this key. */
  predicate Sets(e: Entry, key: string) {
    |Words(e.cmd)| >= 2 && Words(e.cmd)[0] == "set" && Words(e.cmd)[1] == key
  }

  predicate Removes(e: Entry, key: string) {
    Words(e.cmd) == ["remove", key]
  }

  /** What a `set` puts in: the rest of its words, a space between each two. */
  function Meant(e: Entry): string
    requires |Words(e.cmd)| >= 2
  {
    Join(Words(e.cmd)[2..], " ")
  }

  /** Position j holds a `set` of the key that no later `remove` undoes. */
  ghost predicate Survives(log: seq<Entry>, key: string, j: nat) {
    j < |log| && Sets(log[j], key) && forall i :: j < i < |log| ==> !Removes(log[i], key)
  }

  /** And no later `set` replaces. */
  ghost predicate SetsLast(log: seq<Entry>, key: string, j: nat) {
    Survives(log, key, j) && forall i :: j < i < |log| ==> !Sets(log[i], key)
  }

  lemma SurvivesFront(log: seq<Entry>, key: string, j: nat)
    requires log != [] && j < |log| - 1
    ensures Survives(log, key, j) <==> Survives(log[..|log| - 1], key, j) && !Removes(log[|log| - 1], key)
    ensures SetsLast(log, key, j) <==>
            SetsLast(log[..|log| - 1], key, j) && !Removes(log[|log| - 1], key) && !Sets(log[|log| - 1], key)
  {
    var front := log[..|log| - 1];
    assert forall i :: 0 <= i < |front| ==> front[i] == log[i];
  }

  lemma OneMoreCommand(kv: map<string, string>, e: Entry, key: string)
    ensures var after := Execute(kv, e.cmd);
            && (Sets(e, key) ==> key in after && after[key] == Meant(e))
            && (Removes(e, key) ==> key !in after)
            && (!Sets(e, key) && !Removes(e, key) ==>
                  (key in after <==> key in kv) && (key in kv ==> after[key] == kv[key]))
  {
  }

  /** A key is in the store exactly when a `set` of it survives, */
  lemma {:induction false} HeldExactly(log: seq<Entry>, key: string)
    ensures key in Replay(log) <==> exists j: nat :: Survives(log, key, j)
  {
    if log != [] {
      var n := |log| - 1;
      var front := log[..n];
      HeldExactly(front, key);
      OneMoreCommand(Replay(front), log[n], key);
      if key in Replay(log) {
        if Sets(log[n], key) {
          assert Survives(log, key, n);
        } else {
          var j: nat :| Survives(front, key, j);
          SurvivesFront(log, key, j);
        }
      }
      if j: nat :| Survives(log, key, j) {
        if j < n {
          SurvivesFront(log, key, j);
        }
      }
    }
  }

  /** with the value the last `set` gave it. */
  lemma {:induction false} HoldsLast(log: seq<Entry>, key: string, j: nat)
    requires SetsLast(log, key, j)
    ensures key in Replay(log) && Replay(log)[key] == Meant(log[j])
  {
    var n := |log| - 1;
    OneMoreCommand(Replay(log[..n]), log[n], key);
    if j < n {
      SurvivesFront(log, key, j);
      HoldsLast(log[..n], key, j);
    }
  }

  /**
    In every run each node's store is this function of the commands it has applied: a key is
    there exactly when some applied `set` of it is followed by no applied `remove` of it, and
    its value is then what the last such `set` says.
    */
  lemma StoreMeans(n: nat, run: seq<System>, a: nat, p: Node, key: string)
    requires n >= 1 && IsRun(n, run) && a < |run| && p < n
    ensures var node := run[a].nodes[p];
            && node.applied <= |node.log|
            && (key in node.kv <==> exists j: nat :: Survives(node.log[..node.applied], key, j))
            && forall j: nat :: SetsLast(node.log[..node.applied], key, j) ==>
                 key in node.kv && node.kv[key] == Meant(node.log[j])
  {
    var node := run[a].nodes[p];
    StateMachineSafety(n, run, a, p, a, p);
    var log := node.log[..node.applied];
    HeldExactly(log, key);
    forall j: nat | SetsLast(log, key, j)
      ensures key in node.kv && node.kv[key] == Meant(node.log[j])
    {
      HoldsLast(log, key, j);
    }
  }

  // -------------------------------------------------------------- reading one's write

  /** A leader takes every `set` and `remove` that holds none of the delimiters, and nothing else, as one entry. */
  lemma TakesExactly(s: NodeState, line: string)
    requires s.role == Leader
    ensures var log := OnCommand(s, line).log;
            if Words(line) != [] && Words(line)[0] in ["set", "remove"]
               && '|' !in line && '~' !in line && '\U{1F}' !in line
            then |log| == |s.log| + 1 && s.log <= log && log[|s.log|].term == s.term
                 && Words(log[|s.log|].cmd) == Words(line)
            else log == s.log
  {
    WordsOfTrimmed(line);
  }

  /** A command a leader took in term t is, at its index, in every log that has an entry of that term there. */
  lemma TakenCommandStays(n: nat, run: seq<System>, a: nat, i: Node, line: string, b: nat, q: Node)
    requires n >= 1 && IsRun(n, run) && a + 1 <= b < |run| && q < n
    requires NextStep(n, run[a], run[a + 1], Command(i, line)) && Accepted(line) && run[a].nodes[i].role == Leader
    requires var j := |run[a].nodes[i].log|;
             j < |run[b].nodes[q].log| && run[b].nodes[q].log[j].term == run[a].nodes[i].term
    ensures run[b].nodes[q].log[|run[a].nodes[i].log|] == Entry(run[a].nodes[i].term, Trim(line))
  {
    var j, t := |run[a].nodes[i].log|, run[a].nodes[i].term;
    RunInv(n, run, a + 1);
    RunInv(n, run, b);
    TakenByLeader(n, run[a], run[a + 1], i, line);
    RunGrowsHistory(n, run, a + 1, b);
    LogShape(n, run[b], q);
    assert MatchesAt(run[b], run[b].nodes[q].log, j);
    assert LogOf(run[a + 1], t)[j] == LogOf(run[b], t)[j];
    assert run[b].nodes[q].log[j] == LogOf(run[b], t)[..j + 1][j];
  }

  lemma TakenByLeader(n: nat, s: System, s': System, i: Node, line: string)
    requires Shaped(n, s) && Inv(n, s') && NextStep(n, s, s', Command(i, line))
    requires Accepted(line) && s.nodes[i].role == Leader
    ensures var j, t := |s.nodes[i].log|, s.nodes[i].term;
            t in s'.reigns && j < |LogOf(s', t)| && LogOf(s', t)[j] == Entry(t, Trim(line))
  {
    assert RoleInv(s', i);
  }

  /**
    A leader took the command `set key words...`. Any leader that has it among the entries it
    has committed, with no later `set` or `remove` of the key among them, answers a `get`
    of the key with those words.
    */
  lemma GetAnswers(n: nat, run: seq<System>, a: nat, i: Node, line: string, key: string, words: seq<string>, b: nat,
                   q: Node)
    requires n >= 1 && IsRun(n, run) && a + 1 <= b < |run| && q < n
    requires NextStep(n, run[a], run[a + 1], Command(i, line)) && Accepted(line) && run[a].nodes[i].role == Leader
    requires Words(line) == ["set", key] + words
    requires var node, j := run[b].nodes[q], |run[a].nodes[i].log|;
             && node.role == Leader && j < node.commitIndex <= |node.log|
             && node.log[j].term == run[a].nodes[i].term
             && forall k :: j < k < node.commitIndex ==> !Sets(node.log[k], key) && !Removes(node.log[k], key)
    ensures OnGet(run[b].nodes[q]).Some?
    ensures Reply(OnGet(run[b].nodes[q]).value, key) == Join(words, " ")
  {
    var node, j := run[b].nodes[q], |run[a].nodes[i].log|;
    TakenCommandStays(n, run, a, i, line, b, q);
    WordsOfTrimmed(line);
    RunInv(n, run, b);
    assert StoreInv(run[b], q);
    ApplyReplays(node);
    assert SetsLast(node.log[..node.commitIndex], key, j);
    HoldsLast(node.log[..node.commitIndex], key, j);
    assert (["set", key] + words)[2..] == words;
  }
}
