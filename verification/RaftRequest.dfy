/** The append request as a line of text: what a leader writes and what a listener reads. */
module RaftRequest {
  import opened Options
  import opened Text
  import opened RaftNode
  import opened RaftWire

  function AppendLine(term: nat, leader: string, commit: nat, log: seq<Entry>): string {
    Join(["append", Decimal(term), leader, Decimal(commit), SerializeLog(log)], " ") + [NEW_LINE]
  }

  /** A line of other than five words is not an append request, and is answered by nobody. */
  function ReadAppend(line: string): Option<(nat, nat, seq<Entry>)> {
    var words := Words(line);
    if |words| == 5 && words[0] == "append"
    then Some((OrZero(ParseU64(words[1])), OrZero(ParseU64(words[3])), ParseEntries(words[4])))
    else None
  }

  lemma DecimalPlain(k: nat)
    ensures Decimal(k) != "" && Plain(Decimal(k))
  {
    DecimalParses(k);
  }

  lemma JoinedFront(front: seq<string>, last: string)
    requires front != []
    ensures Join(front + [last], " ") + [NEW_LINE] ==
            front[0] + [' '] + (Join(front[1..] + [last], " ") + [NEW_LINE])
  {
    assert (front + [last])[1..] == front[1..] + [last];
    Regrouped(front[0], Join(front[1..] + [last], " "));
  }

  lemma Regrouped(word: string, rest: string)
    ensures word + " " + rest + [NEW_LINE] == word + [' '] + (rest + [NEW_LINE])
  {
  }

  lemma {:induction false} JoinedWords(front: seq<string>, last: string)
    requires forall k :: 0 <= k < |front| ==> front[k] != "" && Plain(front[k])
    ensures Words(Join(front + [last], " ") + [NEW_LINE]) == front + Words(last + [NEW_LINE])
  {
    if front == [] {
      assert front + [last] == [last];
    } else {
      var rest := Join(front[1..] + [last], " ");
      JoinedWords(front[1..], last);
      WordThen(front[0], ' ', rest + [NEW_LINE]);
      JoinedFront(front, last);
    }
  }

  /** The first four words, and those of the log's text. */
  lemma LineWords(term: nat, leader: string, commit: nat, log: seq<Entry>)
    requires leader != "" && Plain(leader)
    ensures Words(AppendLine(term, leader, commit, log)) ==
            ["append", Decimal(term), leader, Decimal(commit)] + Words(SerializeLog(log) + [NEW_LINE])
  {
    var front := ["append", Decimal(term), leader, Decimal(commit)];
    DecimalPlain(term);
    DecimalPlain(commit);
    JoinedWords(front, SerializeLog(log));
    assert front + [SerializeLog(log)] == ["append", Decimal(term), leader, Decimal(commit), SerializeLog(log)];
  }

  lemma {:induction false} JoinedOneRead(front: seq<string>, last: string)
    requires NEW_LINE !in last && forall k :: 0 <= k < |front| ==> Plain(front[k])
    ensures NEW_LINE !in Join(front + [last], " ")
  {
    if front == [] {
      assert front + [last] == [last];
    } else {
      assert (front + [last])[1..] == front[1..] + [last];
      JoinedOneRead(front[1..], last);
    }
  }

  /** The listener reads the whole line when no command holds a line end. */
  lemma AppendIsOneRead(term: nat, leader: string, commit: nat, log: seq<Entry>)
    requires Plain(leader) && forall e :: e in log ==> NEW_LINE !in e.cmd
    ensures OneRead(AppendLine(term, leader, commit, log))
  {
    var front := ["append", Decimal(term), leader, Decimal(commit)];
    DecimalPlain(term);
    DecimalPlain(commit);
    WhiteInText(log, NEW_LINE);
    JoinedOneRead(front, SerializeLog(log));
    assert front + [SerializeLog(log)] == ["append", Decimal(term), leader, Decimal(commit), SerializeLog(log)];
  }

  /** The last command has no white space at its end. */
  predicate EndsTrimmed(log: seq<Entry>) {
    log != [] ==> Trim(log[|log| - 1].cmd) == log[|log| - 1].cmd
  }

  lemma EntryStarts(e: Entry)
    ensures EntryText(e) != "" && !IsWhite(EntryText(e)[0])
  {
    DecimalParses(e.term);
    assert Decimal(e.term)[0] in Decimal(e.term);
  }

  lemma EntryEnds(e: Entry)
    requires Trim(e.cmd) == e.cmd
    ensures Bounded(EntryText(e))
  {
    EntryStarts(e);
    var text := EntryText(e);
    ReplaceLast(e.cmd, ' ', UNIT);
    var k := TrimKeeps(e.cmd);
    assert e.cmd == "" ==> text[|text| - 1] == TILDE;
    assert e.cmd != "" ==> text[|text| - 1] == Replace(e.cmd, ' ', UNIT)[|e.cmd| - 1];
  }

  lemma {:induction false} JoinedEnds(parts: seq<string>)
    requires parts != [] && parts[0] != "" && Bounded(parts[|parts| - 1]) && !IsWhite(parts[0][0])
    requires forall i :: 0 <= i < |parts| ==> parts[i] != "" && !IsWhite(parts[i][0])
    ensures Bounded(Join(parts, [BAR]))
  {
    if |parts| > 1 {
      JoinedEnds(parts[1..]);
      var rest := Join(parts[1..], [BAR]);
      var whole := parts[0] + [BAR] + rest;
      assert whole[|whole| - 1] == rest[|rest| - 1] && whole[0] == parts[0][0];
    }
  }

  lemma TextBounded(log: seq<Entry>)
    requires EndsTrimmed(log)
    ensures Bounded(SerializeLog(log))
  {
    if log != [] {
      TextsAt(log);
      forall i | 0 <= i < |log|
        ensures EntryTexts(log)[i] != "" && !IsWhite(EntryTexts(log)[i][0])
      {
        EntryStarts(log[i]);
      }
      EntryEnds(log[|log| - 1]);
      JoinedEnds(EntryTexts(log));
    }
  }

  /**
    The line has five words, the last of them the log's text, exactly when the commands hold no white space but ' '.
    */
  lemma FiveWordsExactly(term: nat, leader: string, commit: nat, log: seq<Entry>)
    requires leader != "" && Plain(leader) && EndsTrimmed(log)
    ensures var words := Words(AppendLine(term, leader, commit, log));
            && (words == ["append", Decimal(term), leader, Decimal(commit), SerializeLog(log)] <==> OnlySpaces(log))
            && (|words| == 5 <==> OnlySpaces(log))
  {
    var blob := SerializeLog(log);
    LineWords(term, leader, commit, log);
    PlainExactly(log);
    TextBounded(log);
    OneWordExactly(blob, NEW_LINE);
    var front := ["append", Decimal(term), leader, Decimal(commit)];
    assert front + [blob] == ["append", Decimal(term), leader, Decimal(commit), blob];
  }

  /** Whatever the log, the text arrives as the fifth word only under that condition. */
  lemma ArrivesWholeExactly(term: nat, leader: string, commit: nat, log: seq<Entry>)
    requires leader != "" && Plain(leader)
    ensures var words := Words(AppendLine(term, leader, commit, log));
            words == ["append", Decimal(term), leader, Decimal(commit), SerializeLog(log)] <==> OnlySpaces(log)
  {
    var line, blob := AppendLine(term, leader, commit, log), SerializeLog(log);
    PlainExactly(log);
    if OnlySpaces(log) {
      LineWords(term, leader, commit, log);
      NotEmptyText(log);
      WordThen(blob, NEW_LINE, "");
      assert blob + [NEW_LINE] + "" == blob + [NEW_LINE];
    } else if Words(line) == ["append", Decimal(term), leader, Decimal(commit), blob] {
      FifthPlain(line, blob);
    }
  }

  lemma FifthPlain(line: string, word: string)
    requires |Words(line)| == 5 && Words(line)[4] == word
    ensures Plain(word)
  {
    WordsPlain(line);
    assert Words(line)[4] in Words(line);
  }

  lemma NotEmptyText(log: seq<Entry>)
    ensures SerializeLog(log) != ""
  {
    if log != [] {
      EntryStarts(log[0]);
      assert EntryTexts(log)[0] == EntryText(log[0]);
      assert EntryText(log[0]) <= SerializeLog(log);
    }
  }

  /** What the listener makes of an append line: the request as sent, or nothing. */
  lemma ReadExactly(term: nat, leader: string, commit: nat, log: seq<Entry>)
    requires leader != "" && Plain(leader) && EndsTrimmed(log)
    requires term < U64_LIMIT && commit < U64_LIMIT && TermsFit(log) && Transparent(log)
    ensures ReadAppend(AppendLine(term, leader, commit, log)) ==
            if OnlySpaces(log) then Some((term, commit, log)) else None
  {
    FiveWordsExactly(term, leader, commit, log);
    if OnlySpaces(log) {
      RoundTripExactly(log);
      NatParses(term);
      NatParses(commit);
    }
  }

  /** Trimming twice is trimming once. */
  lemma TrimmedTwice(line: string)
    ensures Trim(Trim(line)) == Trim(line)
  {
    var k := TrimKeeps(line);
  }

  lemma TabInTrimmed(key: string, i: nat)
    requires i < |key| && !IsWhite(key[i])
    ensures '\t' in Trim("set\t" + key)
  {
    var line := "set\t" + key;
    var k := TrimKeeps(line);
    assert line[0] == 's' && line[3] == '\t' && line[4 + i] == key[i];
    assert k == 0;
    assert Trim(line)[3] == line[3];
  }

  lemma TabAccepted(key: string)
    requires BAR !in key && TILDE !in key && UNIT !in key
    ensures Accepted("set\t" + key)
  {
    WordThen("set", '\t', key);
    assert "set" + ['\t'] + key == "set\t" + key;
  }

  lemma CommandStored(s: NodeState, line: string)
    requires s.role == Leader && Accepted(line)
    ensures var log := OnCommand(s, line).log;
            |log| == |s.log| + 1 && log[|log| - 1].cmd == Trim(line) && log[|log| - 1] in log
  {
  }

  lemma TabStored(s: NodeState, key: string, i: nat)
    requires s.role == Leader && BAR !in key && TILDE !in key && UNIT !in key
    requires i < |key| && !IsWhite(key[i])
    ensures var log := OnCommand(s, "set\t" + key).log;
            |log| == |s.log| + 1 && EndsTrimmed(log) && !OnlySpaces(log)
  {
    var line := "set\t" + key;
    TabAccepted(key);
    TabInTrimmed(key, i);
    TrimmedTwice(line);
    CommandStored(s, line);
    assert IsWhite('\t');
  }

  /** A leader stores a command with a tab, and from then on no append request it sends is read. */
  lemma TabCommandUnread(s: NodeState, key: string, i: nat, leader: string, term: nat, commit: nat)
    requires s.role == Leader && BAR !in key && TILDE !in key && UNIT !in key
    requires i < |key| && !IsWhite(key[i]) && leader != "" && Plain(leader)
    ensures var log := OnCommand(s, "set\t" + key).log;
            && |log| == |s.log| + 1
            && Words(AppendLine(term, leader, commit, log))[0] == "append"
            && ReadAppend(AppendLine(term, leader, commit, log)) == None
  {
    var log := OnCommand(s, "set\t" + key).log;
    TabStored(s, key, i);
    LineWords(term, leader, commit, log);
    FiveWordsExactly(term, leader, commit, log);
  }
}
