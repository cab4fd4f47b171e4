/** The few string operations the nodes use on command lines. */
module Text {

  const NEW_LINE := '\n'

  /** What reading up to a line end gives: the line end can only come last. */
  predicate OneRead(line: string) {
    forall i :: 0 <= i < |line| - 1 ==> line[i] != NEW_LINE
  }

  /** Unicode white space, as the standard library's split and trim see it. */
  predicate IsWhite(ch: char) {
    || 0x09 as char <= ch <= 0x0d as char
    || ch in {' ', 0x85 as char, 0xa0 as char, 0x1680 as char, 0x2028 as char, 0x2029 as char,
              0x202f as char, 0x205f as char, 0x3000 as char}
    || 0x2000 as char <= ch <= 0x200a as char
  }

  /** How many leading characters are not white. */
  function WordEnd(s: string): (k: nat)
    ensures k <= |s|
    ensures forall i :: 0 <= i < k ==> !IsWhite(s[i])
    ensures k < |s| ==> IsWhite(s[k])
  {
    if s == "" || IsWhite(s[0]) then 0 else 1 + WordEnd(s[1..])
  }

  /** The white-space separated words of a line. */
  function Words(s: string): (words: seq<string>)
    decreases |s|
  {
    if s == "" then []
    else if IsWhite(s[0]) then Words(s[1..])
    else
      var k := WordEnd(s);
      [s[..k]] + Words(s[k..])
  }

  function TrimStart(s: string): string {
    if s != "" && IsWhite(s[0]) then TrimStart(s[1..]) else s
  }

  function TrimEnd(s: string): string {
    if s != "" && IsWhite(s[|s| - 1]) then TrimEnd(s[..|s| - 1]) else s
  }

  function Trim(s: string): string {
    TrimEnd(TrimStart(s))
  }

  function Join(parts: seq<string>, sep: string): string {
    if parts == [] then ""
    else if |parts| == 1 then parts[0]
    else parts[0] + sep + Join(parts[1..], sep)
  }

  // ---------------------------------------------------------------------- words

  /** No white space in it. */
  predicate Plain(s: string) {
    forall ch :: ch in s ==> !IsWhite(ch)
  }

  lemma {:induction false} FirstWord(word: string, white: char, rest: string)
    requires Plain(word) && IsWhite(white)
    ensures WordEnd(word + [white] + rest) == |word|
  {
    if word != "" {
      FirstWord(word[1..], white, rest);
      assert (word + [white] + rest)[1..] == word[1..] + [white] + rest;
    }
  }

  lemma {:induction false} WholeWord(s: string)
    requires Plain(s)
    ensures WordEnd(s) == |s|
  {
    if s != "" {
      assert s[0] in s;
      WholeWord(s[1..]);
    }
  }

  lemma OneWordOnly(word: string)
    requires word != "" && Plain(word)
    ensures Words(word) == [word]
  {
    WholeWord(word);
    assert word[0] in word;
    assert word[..|word|] == word && word[|word|..] == "";
  }

  /** A word, white space, and the words of the rest. */
  lemma WordThen(word: string, white: char, rest: string)
    requires word != "" && Plain(word) && IsWhite(white)
    ensures Words(word + [white] + rest) == [word] + Words(rest)
  {
    var s := word + [white] + rest;
    FirstWord(word, white, rest);
    assert s[0] == word[0] && word[0] in word;
    assert s[..|word|] == word && s[|word|..] == [white] + rest;
    assert ([white] + rest)[1..] == rest;
  }

  lemma {:induction false} WordsPlain(s: string)
    ensures forall word :: word in Words(s) ==> word != "" && Plain(word)
    decreases |s|
  {
    if s != "" {
      if IsWhite(s[0]) {
        WordsPlain(s[1..]);
      } else {
        WordsPlain(s[WordEnd(s)..]);
      }
    }
  }

  lemma {:induction false} SomeWord(s: string, i: nat)
    requires i < |s| && !IsWhite(s[i])
    ensures Words(s) != []
  {
    if IsWhite(s[0]) {
      SomeWord(s[1..], i - 1);
    }
  }

  /** Starts and ends with a character that is not white. */
  predicate Bounded(s: string) {
    s != "" && !IsWhite(s[0]) && !IsWhite(s[|s| - 1])
  }

  /** Such a text is one word exactly when it holds no white space. */
  lemma OneWordExactly(s: string, white: char)
    requires Bounded(s) && IsWhite(white)
    ensures Words(s + [white]) == [s] <==> Plain(s)
    ensures |Words(s + [white])| == 1 <==> Plain(s)
  {
    if Plain(s) {
      WordThen(s, white, "");
      assert s + [white] + "" == s + [white];
    } else {
      AllWord(s);
      SeveralWords(s, white);
    }
  }

  lemma SeveralWords(s: string, white: char)
    requires Bounded(s) && IsWhite(white) && WordEnd(s) < |s|
    ensures |Words(s + [white])| > 1
  {
    var k := WordEnd(s);
    var word, rest := s[..k], s[k + 1..];
    assert s == word + [s[k]] + rest;
    assert word[0] == s[0] && rest[|rest| - 1] == s[|s| - 1];
    WordAndMore(word, s[k], rest, white);
    EndRegrouped(word, s[k], rest, white);
  }

  lemma EndRegrouped(word: string, sep: char, rest: string, white: char)
    ensures word + [sep] + rest + [white] == word + [sep] + (rest + [white])
  {
  }

  lemma WordAndMore(word: string, sep: char, rest: string, white: char)
    requires word != "" && Plain(word) && IsWhite(sep) && rest != "" && !IsWhite(rest[|rest| - 1])
    ensures |Words(word + [sep] + (rest + [white]))| > 1
  {
    WordThen(word, sep, rest + [white]);
    SomeWord(rest + [white], |rest| - 1);
  }

  lemma AllWord(s: string)
    ensures WordEnd(s) == |s| ==> Plain(s)
  {
  }

  // ------------------------------------------------------------------- trimming

  lemma {:induction false} TrimEndLast(s: string)
    ensures TrimEnd(s) <= s
    ensures TrimEnd(s) != "" ==> !IsWhite(TrimEnd(s)[|TrimEnd(s)| - 1])
    ensures forall i :: |TrimEnd(s)| <= i < |s| ==> IsWhite(s[i])
  {
    if s != "" && IsWhite(s[|s| - 1]) {
      TrimEndLast(s[..|s| - 1]);
    }
  }

  lemma {:induction false} TrimStartTail(s: string)
    ensures |TrimStart(s)| <= |s| && TrimStart(s) == s[|s| - |TrimStart(s)|..]
    ensures TrimStart(s) != "" ==> !IsWhite(TrimStart(s)[0])
  {
    if s != "" && IsWhite(s[0]) {
      TrimStartTail(s[1..]);
    }
  }

  lemma {:induction false} TrimStartDrops(s: string, i: nat)
    requires i + |TrimStart(s)| < |s|
    ensures IsWhite(s[i])
  {
    if s != "" && IsWhite(s[0]) && i > 0 {
      TrimStartDrops(s[1..], i - 1);
    }
  }

  /** Trimming gives a text with no white space at its ends, cut out of the line, and all else it drops is white. */
  lemma TrimKeeps(line: string) returns (k: nat)
    ensures k + |Trim(line)| <= |line| && Trim(line) == line[k..k + |Trim(line)|]
    ensures Trim(line) != "" ==> Bounded(Trim(line))
    ensures forall i :: 0 <= i < k || k + |Trim(line)| <= i < |line| ==> IsWhite(line[i])
  {
    var rest := TrimStart(line);
    TrimStartTail(line);
    TrimEndLast(rest);
    k := |line| - |rest|;
    forall i | 0 <= i < k
      ensures IsWhite(line[i])
    {
      TrimStartDrops(line, i);
    }
    forall i | k + |Trim(line)| <= i < |line|
      ensures IsWhite(line[i])
    {
      assert line[i] == rest[i - k];
    }
  }

  lemma WordThenMore(word: string, sep: char, rest: string, white: char)
    requires word != "" && Plain(word) && IsWhite(sep) && Words(rest + [white]) == Words(rest)
    ensures Words(word + [sep] + rest + [white]) == Words(word + [sep] + rest)
  {
    WordThen(word, sep, rest);
    WordThen(word, sep, rest + [white]);
    assert word + [sep] + rest + [white] == word + [sep] + (rest + [white]);
  }

  lemma WordAtEnd(word: string, white: char)
    requires word != "" && Plain(word) && IsWhite(white)
    ensures Words(word + [white]) == Words(word)
  {
    OneWordOnly(word);
    WordThen(word, white, "");
    assert word + [white] + "" == word + [white];
  }

  /** White space at the end makes no word. */
  lemma {:induction false} WhiteAtEnd(s: string, white: char)
    requires IsWhite(white)
    ensures Words(s + [white]) == Words(s)
    decreases |s|
  {
    if s == "" {
      assert s + [white] == [white] && [white][1..] == "";
    } else if IsWhite(s[0]) {
      WhiteAtEnd(s[1..], white);
      assert (s + [white])[1..] == s[1..] + [white];
    } else {
      var k := WordEnd(s);
      AllWord(s);
      if k == |s| {
        WordAtEnd(s, white);
      } else {
        assert s[..k] + [s[k]] + s[k + 1..] == s && s[..k][0] == s[0];
        WhiteAtEnd(s[k + 1..], white);
        WordThenMore(s[..k], s[k], s[k + 1..], white);
      }
    }
  }

  lemma {:induction false} WordsOfTrimEnd(s: string)
    ensures Words(TrimEnd(s)) == Words(s)
  {
    if s != "" && IsWhite(s[|s| - 1]) {
      var front := s[..|s| - 1];
      assert front + [s[|s| - 1]] == s;
      WhiteAtEnd(front, s[|s| - 1]);
      WordsOfTrimEnd(front);
    }
  }

  lemma {:induction false} WordsOfTrimStart(s: string)
    ensures Words(TrimStart(s)) == Words(s)
  {
    if s != "" && IsWhite(s[0]) {
      WordsOfTrimStart(s[1..]);
    }
  }

  /** Trimming a line keeps its words. */
  lemma WordsOfTrimmed(line: string)
    ensures Words(Trim(line)) == Words(line)
  {
    WordsOfTrimStart(line);
    WordsOfTrimEnd(TrimStart(line));
  }
}
