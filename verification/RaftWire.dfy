/**
  The text form of a log, as the append request and the state file carry it:
  `term~command` entries joined by '|', spaces in commands replaced by U+001F.
  */
module RaftWire {
  import opened Options
  import opened Text
  import opened RaftNode

  const BAR := '|'
  const TILDE := '~'
  const UNIT := 0x1f as char
  const U64_LIMIT := 0x1_0000_0000_0000_0000

  // ------------------------------------------------------------- number formats

  function DigitChar(d: nat): char
    requires d < 10
  {
    '0' + d as char
  }

  function Decimal(k: nat): string {
    if k < 10 then [DigitChar(k)] else Decimal(k / 10) + [DigitChar(k % 10)]
  }

  function FromDigits(s: string): Option<nat> {
    if s == "" then None
    else
      var ch := s[|s| - 1];
      if !('0' <= ch <= '9') then None
      else if |s| == 1 then Some((ch - '0') as nat)
      else
        match FromDigits(s[..|s| - 1])
        case None => None
        case Some(front) => Some(10 * front + (ch - '0') as nat)
  }

  /** `parse::<u64>`: digits with an optional plus sign, within 64 bits. */
  function ParseU64(s: string): Option<nat> {
    var digits := if |s| > 1 && s[0] == '+' then s[1..] else s;
    match FromDigits(digits)
    case None => None
    case Some(k) => if k < U64_LIMIT then Some(k) else None
  }

  /** A number that does not parse is zero. */
  function OrZero(parsed: Option<nat>): nat {
    if parsed.Some? then parsed.value else 0
  }

  predicate IsDigit(ch: char) {
    '0' <= ch <= '9'
  }

  lemma {:induction false} DecimalParses(k: nat)
    ensures FromDigits(Decimal(k)) == Some(k) && Decimal(k) != ""
    ensures forall ch :: ch in Decimal(k) ==> IsDigit(ch)
  {
    if k >= 10 {
      DecimalParses(k / 10);
      var front := Decimal(k / 10);
      assert Decimal(k)[..|Decimal(k)| - 1] == front;
    }
  }

  lemma NatParses(k: nat)
    requires k < U64_LIMIT
    ensures ParseU64(Decimal(k)) == Some(k)
    ensures Decimal(k) != "" && Decimal(k) != "-" && forall ch :: ch in Decimal(k) ==> IsDigit(ch)
  {
    DecimalParses(k);
    assert Decimal(k)[0] in Decimal(k);
  }

  // ------------------------------------------------------------ string operations

  function Replace(s: string, old': char, new': char): string {
    if s == "" then "" else [if s[0] == old' then new' else s[0]] + Replace(s[1..], old', new')
  }

  /** `split`: the parts between separators, at least one. */
  function Split(s: string, sep: char): (parts: seq<string>)
    ensures parts != []
  {
    if s == "" then [""]
    else if s[0] == sep then [""] + Split(s[1..], sep)
    else
      var rest := Split(s[1..], sep);
      [[s[0]] + rest[0]] + rest[1..]
  }

  function SplitOnce(s: string, sep: char): Option<(string, string)> {
    if s == "" then None
    else if s[0] == sep then Some(("", s[1..]))
    else
      match SplitOnce(s[1..], sep)
      case None => None
      case Some((a, b)) => Some(([s[0]] + a, b))
  }

  // ------------------------------------------------------------------ the format

  function EntryText(e: Entry): string {
    Decimal(e.term) + [TILDE] + Replace(e.cmd, ' ', UNIT)
  }

  function EntryTexts(log: seq<Entry>): seq<string> {
    if log == [] then [] else [EntryText(log[0])] + EntryTexts(log[1..])
  }

  function SerializeLog(log: seq<Entry>): string {
    if log == [] then "-" else Join(EntryTexts(log), [BAR])
  }

  function ParseEntry(part: string): Option<Entry> {
    match SplitOnce(part, TILDE)
    case None => None
    case Some((t, cmd)) =>
      match ParseU64(t)
      case None => None
      case Some(term) => Some(Entry(term, Replace(cmd, UNIT, ' ')))
  }

  function ParseParts(parts: seq<string>): seq<Entry> {
    if parts == [] then []
    else
      match ParseEntry(parts[0])
      case None => ParseParts(parts[1..])
      case Some(e) => [e] + ParseParts(parts[1..])
  }

  function ParseEntries(blob: string): seq<Entry> {
    if blob == "-" then [] else ParseParts(Split(blob, BAR))
  }

  // ------------------------------------------------------------------- round trip

  /** The terms fit the 64 bits the program stores them in. */
  predicate TermsFit(log: seq<Entry>) {
    forall e :: e in log ==> e.term < U64_LIMIT
  }

  predicate Transparent(log: seq<Entry>) {
    forall e :: e in log ==> BAR !in e.cmd && UNIT !in e.cmd
  }

  lemma {:induction false} ReplaceBack(s: string)
    requires UNIT !in s
    ensures Replace(Replace(s, ' ', UNIT), UNIT, ' ') == s
  {
    if s != "" {
      ReplaceBack(s[1..]);
    }
  }

  lemma {:induction false} ReplaceChars(s: string, a: char, b: char, ch: char)
    ensures ch in Replace(s, a, b) <==> (ch in s && ch != a) || (ch == b && a in s)
  {
    if s != "" {
      ReplaceChars(s[1..], a, b, ch);
      assert s == [s[0]] + s[1..];
    }
  }

  lemma {:induction false} SplitOnceAt(a: string, b: string, sep: char)
    requires sep !in a
    ensures SplitOnce(a + [sep] + b, sep) == Some((a, b))
  {
    var s := a + [sep] + b;
    if a != "" {
      SplitOnceAt(a[1..], b, sep);
      assert s[1..] == a[1..] + [sep] + b;
      assert a == [a[0]] + a[1..];
    } else {
      assert s[1..] == b;
    }
  }

  lemma ParseEntryText(e: Entry)
    requires e.term < U64_LIMIT
    ensures ParseEntry(EntryText(e)) == Some(Entry(e.term, Replace(Replace(e.cmd, ' ', UNIT), UNIT, ' ')))
  {
    DecimalParses(e.term);
    SplitOnceAt(Decimal(e.term), Replace(e.cmd, ' ', UNIT), TILDE);
    assert Decimal(e.term)[0] in Decimal(e.term);
  }

  lemma {:induction false} SplitPart(part: string, rest: string, sep: char)
    requires sep !in part
    ensures Split(part + [sep] + rest, sep) == [part] + Split(rest, sep)
    ensures Split(part, sep) == [part]
  {
    if part != "" {
      var s := part + [sep] + rest;
      SplitPart(part[1..], rest, sep);
      assert s[1..] == part[1..] + [sep] + rest;
      assert part == [part[0]] + part[1..];
    }
  }

  lemma {:induction false} SplitJoined(parts: seq<string>)
    requires parts != [] && forall p :: p in parts ==> BAR !in p
    ensures Split(Join(parts, [BAR]), BAR) == parts
  {
    if |parts| == 1 {
      SplitPart(parts[0], "", BAR);
    } else {
      SplitJoined(parts[1..]);
      SplitPart(parts[0], Join(parts[1..], [BAR]), BAR);
      assert parts[0] + [BAR] + Join(parts[1..], [BAR]) == Join(parts, [BAR]);
    }
  }

  lemma EntryTextAvoidsBar(e: Entry)
    requires BAR !in e.cmd
    ensures BAR !in EntryText(e)
  {
    DecimalParses(e.term);
    ReplaceChars(e.cmd, ' ', UNIT, BAR);
  }

  lemma {:induction false} ParsesBack(log: seq<Entry>)
    requires TermsFit(log) && Transparent(log)
    ensures ParseParts(EntryTexts(log)) == log
    ensures forall p :: p in EntryTexts(log) ==> BAR !in p
  {
    if log != [] {
      assert log[0] in log && log == [log[0]] + log[1..];
      ParsesBack(log[1..]);
      ParseEntryText(log[0]);
      ReplaceBack(log[0].cmd);
      EntryTextAvoidsBar(log[0]);
    }
  }

  /** No parsed command contains '|' or U+001F, whatever the text. */
  lemma {:induction false} ParsedAvoids(parts: seq<string>)
    requires forall p :: p in parts ==> BAR !in p
    ensures Transparent(ParseParts(parts))
  {
    if parts != [] {
      ParsedAvoids(parts[1..]);
      if ParseEntry(parts[0]).Some? {
        var cmd := SplitOnce(parts[0], TILDE).value.1;
        SplitOnceChars(parts[0], TILDE, BAR);
        ReplaceChars(cmd, UNIT, ' ', BAR);
        ReplaceChars(cmd, UNIT, ' ', UNIT);
      }
    }
  }

  lemma {:induction false} SplitOnceChars(s: string, sep: char, ch: char)
    requires ch !in s
    ensures SplitOnce(s, sep).Some? ==> ch !in SplitOnce(s, sep).value.1
  {
    if s != "" && s[0] != sep {
      SplitOnceChars(s[1..], sep, ch);
    }
  }

  lemma {:induction false} SplitAvoids(s: string, sep: char)
    ensures forall p :: p in Split(s, sep) ==> sep !in p
  {
    if s != "" {
      SplitAvoids(s[1..], sep);
    }
  }

  // A log with entries never serialises to the text of the empty one.
  lemma NotDash(log: seq<Entry>)
    requires log != []
    ensures SerializeLog(log) != "-"
  {
    var first := EntryText(log[0]);
    DecimalParses(log[0].term);
    assert TILDE in first;
    assert EntryTexts(log)[0] == first;
    assert first <= SerializeLog(log);
    assert TILDE in SerializeLog(log);
  }

  /** A log survives serialising and parsing exactly when no command contains '|' or U+001F. A '~' does no harm. */
  lemma RoundTripExactly(log: seq<Entry>)
    requires TermsFit(log)
    ensures ParseEntries(SerializeLog(log)) == log <==> Transparent(log)
  {
    if log != [] {
      NotDash(log);
      if Transparent(log) {
        ParsesBack(log);
        SplitJoined(EntryTexts(log));
      } else {
        SplitAvoids(SerializeLog(log), BAR);
        ParsedAvoids(Split(SerializeLog(log), BAR));
      }
    }
  }

  // ---------------------------------------------------------------- white space

  /** The commands hold no white space but ' '. */
  predicate OnlySpaces(log: seq<Entry>) {
    forall e, ch :: e in log && ch in e.cmd && IsWhite(ch) ==> ch == ' '
  }

  lemma {:induction false} JoinChars(parts: seq<string>, ch: char)
    ensures ch in Join(parts, [BAR]) <==> (exists p :: p in parts && ch in p) || (ch == BAR && |parts| > 1)
  {
    if |parts| == 1 {
      assert parts == [parts[0]];
    } else if parts != [] {
      JoinChars(parts[1..], ch);
      assert parts == [parts[0]] + parts[1..];
      assert parts[0] in parts;
      assert Join(parts, [BAR]) == parts[0] + [BAR] + Join(parts[1..], [BAR]);
    }
  }

  lemma {:induction false} TextsOf(log: seq<Entry>, ch: char)
    ensures (exists p :: p in EntryTexts(log) && ch in p) <==> exists e :: e in log && ch in EntryText(e)
  {
    if log != [] {
      TextsOf(log[1..], ch);
      assert log == [log[0]] + log[1..];
      var texts := EntryTexts(log);
      assert texts == [EntryText(log[0])] + EntryTexts(log[1..]);
      assert log[0] in log && texts[0] in texts;
    }
  }

  lemma EntryWhite(e: Entry, ch: char)
    requires IsWhite(ch)
    ensures ch in EntryText(e) <==> ch in e.cmd && ch != ' '
  {
    DecimalParses(e.term);
    ReplaceChars(e.cmd, ' ', UNIT, ch);
  }

  lemma WhiteInText(log: seq<Entry>, ch: char)
    requires IsWhite(ch)
    ensures ch in SerializeLog(log) <==> exists e :: e in log && ch in e.cmd && ch != ' '
  {
    if log != [] {
      JoinChars(EntryTexts(log), ch);
      TextsOf(log, ch);
      forall e | e in log
        ensures ch in EntryText(e) <==> ch in e.cmd && ch != ' '
      {
        EntryWhite(e, ch);
      }
    }
  }

  /** The text of a log holds white space exactly when a command holds some other than ' '. */
  lemma PlainExactly(log: seq<Entry>)
    ensures Plain(SerializeLog(log)) <==> OnlySpaces(log)
  {
    forall ch | IsWhite(ch)
      ensures ch in SerializeLog(log) <==> exists e :: e in log && ch in e.cmd && ch != ' '
    {
      WhiteInText(log, ch);
    }
  }

  lemma {:induction false} ReplaceLast(s: string, a: char, b: char)
    ensures |Replace(s, a, b)| == |s|
    ensures s != "" ==> Replace(s, a, b)[|s| - 1] == if s[|s| - 1] == a then b else s[|s| - 1]
  {
    if |s| > 1 {
      ReplaceLast(s[1..], a, b);
    }
  }

  lemma {:induction false} TextsAt(log: seq<Entry>)
    ensures |EntryTexts(log)| == |log| && forall i :: 0 <= i < |log| ==> EntryTexts(log)[i] == EntryText(log[i])
  {
    if log != [] {
      TextsAt(log[1..]);
    }
  }
}
