/** The text of a state file: its lines, and the numbers in them. */
module StateFiles {
  import opened Options
  import opened Text
  import opened RaftWire

  const RETURN := '\r'
  const I64_LIMIT := 0x8000_0000_0000_0000

  function LineEnd(s: string): (k: nat)
    ensures k <= |s| && (forall i :: 0 <= i < k ==> s[i] != NEW_LINE) && (k < |s| ==> s[k] == NEW_LINE)
  {
    if s == "" || s[0] == NEW_LINE then 0 else 1 + LineEnd(s[1..])
  }

  /** `lines`: without the line ends, which are "\n" or "\r\n". */
  function Lines(s: string): seq<string>
    decreases |s|
  {
    if s == "" then [] else
    var k := LineEnd(s);
    if k == |s| then [s]
    else if k > 0 && s[k - 1] == RETURN then [s[..k - 1]] + Lines(s[k + 1..])
    else [s[..k]] + Lines(s[k + 1..])
  }

  /** Text that stays one whole line when it is written with a line end after it. */
  predicate OneLine(s: string) {
    NEW_LINE !in s && (s != "" ==> s[|s| - 1] != RETURN)
  }

  lemma {:induction false} LineEndAt(line: string, rest: string)
    requires NEW_LINE !in line
    ensures LineEnd(line + [NEW_LINE] + rest) == |line|
  {
    if line != "" {
      LineEndAt(line[1..], rest);
      assert (line + [NEW_LINE] + rest)[1..] == line[1..] + [NEW_LINE] + rest;
    }
  }

  lemma FirstLine(line: string, rest: string)
    requires OneLine(line)
    ensures Lines(line + [NEW_LINE] + rest) == [line] + Lines(rest)
  {
    var s := line + [NEW_LINE] + rest;
    LineEndAt(line, rest);
    assert s[..|line|] == line && s[|line| + 1..] == rest;
  }

  /** Lines written out, a line end after each. */
  function Written(lines: seq<string>): string {
    if lines == [] then "" else lines[0] + [NEW_LINE] + Written(lines[1..])
  }

  lemma {:induction false} WrittenLines(lines: seq<string>)
    requires forall i :: 0 <= i < |lines| ==> OneLine(lines[i])
    ensures Lines(Written(lines)) == lines
  {
    if lines != [] {
      WrittenLines(lines[1..]);
      FirstLine(lines[0], Written(lines[1..]));
    }
  }

  function StripPrefix(line: string, prefix: string): Option<string> {
    if prefix <= line then Some(line[|prefix|..]) else None
  }

  lemma Stripped(prefix: string, rest: string)
    ensures StripPrefix(prefix + rest, prefix) == Some(rest)
  {
  }

  /** What follows the prefix in the last line that has it. */
  function LastWith(lines: seq<string>, prefix: string): Option<string> {
    if lines == [] then None
    else if prefix <= lines[|lines| - 1] then Some(lines[|lines| - 1][|prefix|..])
    else LastWith(lines[..|lines| - 1], prefix)
  }

  function IntText(k: int): string {
    if k < 0 then "-" + Decimal(-k) else Decimal(k)
  }

  /** `parse::<i64>`: digits with an optional sign, within 64 bits. */
  function ParseI64(s: string): Option<int> {
    var negative := |s| > 1 && s[0] == '-';
    var digits := if |s| > 1 && s[0] in {'+', '-'} then s[1..] else s;
    match FromDigits(digits)
    case None => None
    case Some(k) =>
      var value: int := if negative then -(k as int) else k as int;
      if -I64_LIMIT <= value < I64_LIMIT then Some(value) else None
  }

  lemma IntParses(k: int)
    requires -I64_LIMIT <= k < I64_LIMIT
    ensures ParseI64(IntText(k)) == Some(k)
    ensures IntText(k) != "" && IntText(k) != "-" && forall ch :: ch in IntText(k) ==> ch == '-' || IsDigit(ch)
  {
    if k < 0 {
      DecimalParses(-k);
      NegativeParses(Decimal(-k), -k);
      SignedChars(Decimal(-k));
    } else {
      DecimalParses(k);
      PositiveParses(Decimal(k), k);
    }
  }

  lemma SignedChars(digits: string)
    requires digits != "" && forall ch :: ch in digits ==> IsDigit(ch)
    ensures "-" + digits != "-" && forall ch :: ch in "-" + digits ==> ch == '-' || IsDigit(ch)
  {
    assert |"-" + digits| > |"-"|;
  }

  lemma NegativeParses(digits: string, k: int)
    requires 0 <= k <= I64_LIMIT && digits != "" && FromDigits(digits) == Some(k)
    ensures ParseI64("-" + digits) == Some(-k)
  {
    assert ("-" + digits)[1..] == digits;
  }

  lemma PositiveParses(digits: string, k: nat)
    requires digits != "" && FromDigits(digits) == Some(k) && k < I64_LIMIT
    requires forall ch :: ch in digits ==> IsDigit(ch)
    ensures ParseI64(digits) == Some(k)
  {
    assert digits[0] in digits;
  }

  lemma LineAfter(front: string, line: string)
    requires NEW_LINE !in front && OneLine(line) && line != ""
    ensures OneLine(front + line)
  {
    assert (front + line)[|front + line| - 1] == line[|line| - 1];
  }

  lemma NumbersAreLines(k: int)
    requires -I64_LIMIT <= k < U64_LIMIT
    ensures k < I64_LIMIT ==> OneLine(IntText(k)) && IntText(k) != ""
    ensures k >= 0 ==> OneLine(Decimal(k)) && Decimal(k) != ""
  {
    if k >= 0 {
      NatParses(k);
      assert Decimal(k)[|Decimal(k)| - 1] in Decimal(k);
    }
    if k < I64_LIMIT {
      IntParses(k);
      assert IntText(k)[|IntText(k)| - 1] in IntText(k);
    }
  }

  /** Two words with a space between are two words. */
  lemma TwoWords(a: string, b: string)
    requires a != "" && b != "" && Plain(a) && Plain(b)
    ensures Words(a + " " + b) == [a, b]
  {
    WordThen(a, ' ', b);
    OneWordOnly(b);
  }
}
