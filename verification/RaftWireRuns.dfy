/** In every run, what the nodes write to each other and to their files stands for what they mean. */
module RaftWireRuns {
  import opened Options
  import opened Text
  import opened RaftNode
  import opened RaftSystem
  import opened RaftTheorems
  import opened RaftWire
  import opened RaftRequest
  import opened StateFiles
  import opened RaftFile

  /** Commands as the interface lets them through: no delimiter, trimmed, and one line each. */
  ghost predicate CleanLog(log: seq<Entry>) {
    Transparent(log) && EndsTrimmed(log) && forall e :: e in log ==> OneLine(e.cmd)
  }

  ghost predicate NodeClean(node: NodeState) {
    CleanLog(node.log) && CleanLog(node.disk.log)
  }

  ghost predicate Clean(s: System) {
    && (forall i :: 0 <= i < |s.nodes| ==> NodeClean(s.nodes[i]))
    && (forall k :: 0 <= k < |s.appends| ==> CleanLog(s.appends[k].log))
  }

  /** `apply` leaves the log and the file alone. */
  lemma {:induction false} ApplyLeavesLog(s: NodeState)
    ensures Apply(s).Some? ==> Apply(s).value.log == s.log && Apply(s).value.disk == s.disk
    decreases s.commitIndex - s.applied
  {
    if s.applied < s.commitIndex && s.applied < |s.log| {
      ApplyLeavesLog(s.(kv := Execute(s.kv, s.log[s.applied].cmd), applied := s.applied + 1));
    }
  }

  lemma AcceptedIsClean(log: seq<Entry>, term: nat, line: string)
    requires CleanLog(log) && Accepted(line) && OneRead(line)
    ensures CleanLog(log + [Entry(term, Trim(line))])
  {
    var k := TrimKeeps(line);
    TrimmedTwice(line);
    CommandIsOneLine(line);
    assert forall ch :: ch in Trim(line) ==> ch in line;
  }

  lemma CommandKeepsClean(s: NodeState, line: string)
    requires NodeClean(s) && OneRead(line)
    ensures NodeClean(OnCommand(s, line))
  {
    if Accepted(line) {
      AcceptedIsClean(s.log, s.term, line);
    }
  }

  lemma AppendKeepsClean(s: NodeState, a: AppendRequest)
    requires NodeClean(s) && CleanLog(a.log)
    ensures OnAppend(s, a.term, a.commit, a.log).Some? ==> NodeClean(OnAppend(s, a.term, a.commit, a.log).value.0)
  {
    ApplyLeavesLog(s.(votedFor := if a.term > s.term then None else s.votedFor,
                      term := a.term, role := Follower, log := a.log,
                      commitIndex := Max(s.commitIndex, Min(a.commit, |a.log|))));
  }

  lemma BeatKeepsClean(n: nat, me: Node, s: NodeState, term: nat, selfLen: nat, acks: map<Node, (nat, nat)>,
                       after: NodeState)
    requires NodeClean(s) && FinishBeat(n, me, s, term, selfLen, acks, Some(after))
    ensures NodeClean(after)
  {
    var top: nat, agreed: nat :| IsHighest(term, AckTerms(acks), top) && IsAgreed(n, me, term, selfLen, acks, agreed)
                                 && Some(after) == SettleBeat(s, term, top, agreed);
    ApplyLeavesLog(Persist(Advance(s, term, agreed)));
  }

  lemma ReloadKeepsClean(d: Durable)
    requires CleanLog(d.log) && Reload(d).Some?
    ensures NodeClean(Reload(d).value)
  {
    ApplyLeavesLog(NodeState(d.term, Follower, d.votedFor, d.log, d.commitIndex, 0, map[], d));
  }

  lemma StepKeepsClean(n: nat, s: System, s': System, step: Step)
    requires Shaped(n, s) && Clean(s) && NextStep(n, s, s', step)
    ensures Clean(s')
  {
    StepKeepsNodeClean(n, s, s', step);
    StepFrames(n, s, s', step);
  }

  lemma StepFrames(n: nat, s: System, s': System, step: Step)
    requires Shaped(n, s) && NextStep(n, s, s', step)
    ensures |s'.nodes| == n && forall j :: 0 <= j < n && j != step.i ==> s'.nodes[j] == s.nodes[j]
    ensures var sender := s.nodes[step.i];
            || s'.appends == s.appends
            || s'.appends == s.appends + [AppendRequest(step.i, sender.term, sender.log, sender.commitIndex)]
  {
  }

  lemma StepKeepsNodeClean(n: nat, s: System, s': System, step: Step)
    requires Shaped(n, s) && Clean(s) && NextStep(n, s, s', step)
    ensures |s'.nodes| == n && NodeClean(s'.nodes[step.i])
  {
    assert NodeClean(s.nodes[step.i]);
    match step {
      case Campaign(_) =>
      case VoteOn(_, _) =>
      case EndCampaign(_, replies, after) =>
        assert NodeClean(after);
      case Beat(_) =>
      case Adopt(_, k) => AppendKeepsClean(s.nodes[step.i], s.appends[k]);
      case EndBeat(i, acked, after) =>
        BeatKeepsClean(n, i, s.nodes[i], s.tasks[i].term, s.tasks[i].selfLen, acked, after);
      case Command(i, line) => CommandKeepsClean(s.nodes[i], line);
      case Get(i) => ApplyLeavesLog(s.nodes[i]);
      case Restart(i) => ReloadKeepsClean(s.nodes[i].disk);
    }
  }

  lemma NextKeepsClean(n: nat, s: System, s': System)
    requires Shaped(n, s) && Clean(s) && Next(n, s, s')
    ensures Clean(s')
  {
    var step :| NextStep(n, s, s', step);
    StepKeepsClean(n, s, s', step);
  }

  lemma RunStep(n: nat, run: seq<System>, k: nat)
    requires IsRun(n, run) && k + 1 < |run|
    ensures Shaped(n, run[k]) && Next(n, run[k], run[k + 1])
  {
  }

  lemma InitClean(n: nat, s: System)
    requires Init(n, s)
    ensures Clean(s)
  {
    ReloadKeepsClean(NO_FILE);
  }

  lemma {:induction false} RunClean(n: nat, run: seq<System>, a: nat)
    requires IsRun(n, run) && a < |run|
    ensures Clean(run[a])
  {
    if a == 0 {
      InitClean(n, run[0]);
    } else {
      RunClean(n, run, a - 1);
      RunStep(n, run, a - 1);
      NextKeepsClean(n, run[a - 1], run[a]);
    }
  }

  // ------------------------------------------------------------------- the terms

  /** No term in a leader's log is past its own. */
  lemma TermsBelow(n: nat, s: System, t: nat, log: seq<Entry>)
    requires Inv(n, s) && log <= LogOf(s, t)
    ensures forall e :: e in log ==> e.term <= t
  {
    if t in s.reigns {
      assert ReignInv(n, s, t);
    }
  }

  // -------------------------------------------------------------------- what is read

  /**
    In every run an append request is read as it was sent when its commands hold no white space but ' ', and else not
    at all.
    */
  lemma AppendsReadBack(n: nat, run: seq<System>, a: nat, k: nat, leader: string)
    requires n >= 1 && IsRun(n, run) && a < |run| && k < |run[a].appends| && leader != "" && Plain(leader)
    requires run[a].appends[k].term < U64_LIMIT && run[a].appends[k].commit < U64_LIMIT
    ensures var sent := run[a].appends[k];
            var line := AppendLine(sent.term, leader, sent.commit, sent.log);
            && ParseEntries(SerializeLog(sent.log)) == sent.log
            && OneRead(line)
            && ReadAppend(line) == if OnlySpaces(sent.log) then Some((sent.term, sent.commit, sent.log)) else None
  {
    var sent := run[a].appends[k];
    RunClean(n, run, a);
    RunInv(n, run, a);
    TermsBelow(n, run[a], sent.term, sent.log);
    RoundTripExactly(sent.log);
    AppendIsOneRead(sent.term, leader, sent.commit, sent.log);
    ReadExactly(sent.term, leader, sent.commit, sent.log);
  }

  /** A node's file, with the address of the member it voted for. */
  function FileOf(d: Durable, address: Node -> string): Stored {
    Stored(d.term, if d.votedFor.Some? then Some(address(d.votedFor.value)) else None, d.commitIndex, d.log)
  }

  /** In every run each node's file reads back as what the node had written. */
  lemma FilesReadBack(n: nat, run: seq<System>, a: nat, i: Node, address: Node -> string)
    requires n >= 1 && IsRun(n, run) && a < |run| && i < n
    requires forall p: Node :: address(p) != "-" && OneLine(address(p))
    requires run[a].nodes[i].disk.term < U64_LIMIT && run[a].nodes[i].disk.commitIndex < U64_LIMIT
    ensures var file := FileOf(run[a].nodes[i].disk, address);
            Storable(file) && Parse(FileText(file)) == file
  {
    RunClean(n, run, a);
    RunInv(n, run, a);
    assert NodeClean(run[a].nodes[i]) && RoleInv(run[a], i);
    TermsBelow(n, run[a], run[a].src[i], run[a].nodes[i].log);
    FileRoundTrip(FileOf(run[a].nodes[i].disk, address));
  }
}
