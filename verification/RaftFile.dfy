/** The Raft node's state file. */
module RaftFile {
  import opened Options
  import opened Text
  import opened RaftNode
  import opened RaftWire
  import opened StateFiles

  /** What the file keeps; a vote is the address of the candidate. */
  datatype Stored = Stored(term: nat, voted: Option<string>, commit: nat, log: seq<Entry>)

  const BLANK := Stored(0, None, 0, [])

  function VotedText(voted: Option<string>): string {
    match voted
    case Some(address) => address
    case None => "-"
  }

  function FileLines(s: Stored): seq<string> {
    ["term " + Decimal(s.term), "voted " + VotedText(s.voted),
     "commit " + Decimal(s.commit), "log " + SerializeLog(s.log)]
  }

  function FileText(s: Stored): string {
    Written(FileLines(s))
  }

  /** A line with none of the four prefixes is passed over, and a number that does not parse is zero. */
  function ReadLine(s: Stored, line: string): Stored {
    match StripPrefix(line, "term ")
    case Some(v) => s.(term := OrZero(ParseU64(v)))
    case None =>
      match StripPrefix(line, "voted ")
      case Some(v) => s.(voted := if v == "-" then None else Some(v))
      case None =>
        match StripPrefix(line, "commit ")
        case Some(v) => s.(commit := OrZero(ParseU64(v)))
        case None =>
          match StripPrefix(line, "log ")
          case Some(v) => s.(log := ParseEntries(v))
          case None => s
  }

  function ReadLines(s: Stored, lines: seq<string>): Stored {
    if lines == [] then s else ReadLine(ReadLines(s, lines[..|lines| - 1]), lines[|lines| - 1])
  }

  function Parse(data: string): Stored {
    ReadLines(BLANK, Lines(data))
  }

  method LoadFile(data: string) returns (s: Stored)
    ensures s == Parse(data)
  {
    var lines := Lines(data);
    var term, voted, commit, log := 0, None, 0, [];
    for i := 0 to |lines|
      invariant ReadLines(BLANK, lines[..i]) == Stored(term, voted, commit, log)
    {
      assert lines[..i + 1][..i] == lines[..i];
      var line := lines[i];
      if "term " <= line {
        term := OrZero(ParseU64(line[5..]));
      } else if "voted " <= line {
        voted := if line[6..] == "-" then None else Some(line[6..]);
      } else if "commit " <= line {
        commit := OrZero(ParseU64(line[7..]));
      } else if "log " <= line {
        log := ParseEntries(line[4..]);
      }
    }
    assert lines[..|lines|] == lines;
    s := Stored(term, voted, commit, log);
  }

  // ------------------------------------------------------------------ every file

  lemma OnePrefix(line: string)
    ensures "term " <= line ==> !("voted " <= line) && !("commit " <= line) && !("log " <= line)
    ensures "voted " <= line ==> !("commit " <= line) && !("log " <= line)
    ensures "commit " <= line ==> !("log " <= line)
  {
    assert "term "[0] == 't' && "voted "[0] == 'v' && "commit "[0] == 'c' && "log "[0] == 'l';
  }

  /**
    Whatever the file, each field is what the last line with its prefix says, a number that
    does not parse being zero, and what a node without a file has when there is no such line.
    */
  lemma {:induction false} FieldsExactly(lines: seq<string>)
    ensures var s := ReadLines(BLANK, lines);
            && s.term == (match LastWith(lines, "term ") case Some(v) => OrZero(ParseU64(v)) case None => 0)
            && s.voted == (match LastWith(lines, "voted ")
                           case Some(v) => if v == "-" then None else Some(v)
                           case None => None)
            && s.commit == (match LastWith(lines, "commit ") case Some(v) => OrZero(ParseU64(v)) case None => 0)
            && s.log == (match LastWith(lines, "log ") case Some(v) => ParseEntries(v) case None => [])
  {
    if lines != [] {
      FieldsExactly(lines[..|lines| - 1]);
      OnePrefix(lines[|lines| - 1]);
    }
  }

  // ------------------------------------------------------------------- round trip

  predicate PlainLog(log: seq<Entry>) {
    TermsFit(log) && Transparent(log) && forall e :: e in log ==> OneLine(e.cmd)
  }

  predicate Storable(s: Stored) {
    && s.term < U64_LIMIT && s.commit < U64_LIMIT && PlainLog(s.log)
    && (s.voted.Some? ==> s.voted.value != "-" && OneLine(s.voted.value))
  }

  lemma NumberLine(prefix: string, k: nat)
    requires NEW_LINE !in prefix && k < U64_LIMIT
    ensures OneLine(prefix + Decimal(k))
  {
    NumbersAreLines(k);
    LineAfter(prefix, Decimal(k));
  }

  lemma EntryLine(e: Entry)
    requires OneLine(e.cmd)
    ensures OneLine(EntryText(e)) && EntryText(e) != ""
  {
    EntryWhite(e, NEW_LINE);
    ReplaceLast(e.cmd, ' ', UNIT);
    var text := EntryText(e);
    assert e.cmd != "" ==> text[|text| - 1] == Replace(e.cmd, ' ', UNIT)[|e.cmd| - 1];
    assert e.cmd == "" ==> text[|text| - 1] == TILDE;
  }

  lemma {:induction false} JoinedLine(parts: seq<string>)
    requires parts != [] && forall i :: 0 <= i < |parts| ==> OneLine(parts[i]) && parts[i] != ""
    ensures OneLine(Join(parts, [BAR])) && Join(parts, [BAR]) != ""
  {
    if |parts| > 1 {
      JoinedLine(parts[1..]);
      var rest := Join(parts[1..], [BAR]);
      var whole := parts[0] + [BAR] + rest;
      assert whole[|whole| - 1] == rest[|rest| - 1];
    }
  }

  lemma LogLine(log: seq<Entry>)
    requires PlainLog(log)
    ensures OneLine("log " + SerializeLog(log))
  {
    if log != [] {
      TextsAt(log);
      forall i | 0 <= i < |log|
        ensures OneLine(EntryTexts(log)[i]) && EntryTexts(log)[i] != ""
      {
        EntryLine(log[i]);
      }
      JoinedLine(EntryTexts(log));
      var text := SerializeLog(log);
      assert ("log " + text)[|"log " + text| - 1] == text[|text| - 1];
    }
  }

  lemma VotedLine(voted: Option<string>)
    requires voted.Some? ==> OneLine(voted.value)
    ensures OneLine("voted " + VotedText(voted))
  {
    var text := VotedText(voted);
    if text != "" {
      assert ("voted " + text)[|"voted " + text| - 1] == text[|text| - 1];
    }
  }

  lemma ReadFour(s: Stored, a: string, b: string, c: string, d: string)
    ensures ReadLines(s, [a, b, c, d]) == ReadLine(ReadLine(ReadLine(ReadLine(s, a), b), c), d)
  {
    assert [a, b, c, d][..3] == [a, b, c] && [a, b, c][..2] == [a, b] && [a, b][..1] == [a] && [a][..0] == [];
    assert ReadLines(s, [a]) == ReadLine(s, a);
    assert ReadLines(s, [a, b]) == ReadLine(ReadLine(s, a), b);
    assert ReadLines(s, [a, b, c]) == ReadLine(ReadLine(ReadLine(s, a), b), c);
  }

  lemma ReadsNumbers(s: Stored, k: nat)
    requires k < U64_LIMIT
    ensures ReadLine(s, "term " + Decimal(k)) == s.(term := k)
    ensures ReadLine(s, "commit " + Decimal(k)) == s.(commit := k)
  {
    NatParses(k);
    Stripped("term ", Decimal(k));
    Stripped("commit ", Decimal(k));
    var line := "commit " + Decimal(k);
    assert line[0] == 'c' && "term "[0] == 't' && "voted "[0] == 'v';
  }

  lemma ReadsVoted(s: Stored, voted: Option<string>)
    requires voted.Some? ==> voted.value != "-"
    ensures ReadLine(s, "voted " + VotedText(voted)) == s.(voted := voted)
  {
    Stripped("voted ", VotedText(voted));
    var line := "voted " + VotedText(voted);
    assert line[0] == 'v' && "term "[0] == 't';
  }

  lemma ReadsLog(s: Stored, log: seq<Entry>)
    requires TermsFit(log) && Transparent(log)
    ensures ReadLine(s, "log " + SerializeLog(log)) == s.(log := log)
  {
    RoundTripExactly(log);
    Stripped("log ", SerializeLog(log));
    var line := "log " + SerializeLog(log);
    assert line[0] == 'l' && "term "[0] == 't' && "voted "[0] == 'v' && "commit "[0] == 'c';
  }

  /** What was written is what a restart reads. */
  lemma FileRoundTrip(s: Stored)
    requires Storable(s)
    ensures Parse(FileText(s)) == s
  {
    var lines := FileLines(s);
    NumberLine("term ", s.term);
    VotedLine(s.voted);
    NumberLine("commit ", s.commit);
    LogLine(s.log);
    WrittenLines(lines);
    ReadFour(BLANK, lines[0], lines[1], lines[2], lines[3]);
    ReadsNumbers(BLANK, s.term);
    ReadsVoted(BLANK.(term := s.term), s.voted);
    ReadsNumbers(BLANK.(term := s.term, voted := s.voted), s.commit);
    ReadsLog(s.(log := []), s.log);
  }

  /** A command read as one line, with its line end, is stored as one line. */
  lemma CommandIsOneLine(line: string)
    requires OneRead(line)
    ensures OneLine(Trim(line))
  {
    var t := Trim(line);
    var k := TrimKeeps(line);
    forall i | 0 <= i < |t|
      ensures t[i] != NEW_LINE
    {
      assert t[i] == line[k + i];
    }
  }
}
