/** Text helpers shared by several components: splitting at white space and at line
    ends, joining, and decimal numbers as Rust's integer parser reads them. */
module Text {
  import opened Basics
  import opened Sequences

  /** The White_Space property of Unicode. */
  predicate IsWhitespace(c: char) {
    var n := c as int;
    || 0x09 <= n <= 0x0D || n == 0x20 || n == 0x85 || n == 0xA0 || n == 0x1680
    || 0x2000 <= n <= 0x200A || n == 0x2028 || n == 0x2029 || n == 0x202F || n == 0x205F || n == 0x3000
  }

  predicate IsWord(s: string) {
    s != "" && forall i :: 0 <= i < |s| ==> !IsWhitespace(s[i])
  }

  /** Where the word at the start of a text ends. */
  function WordEnd(s: string): (n: nat)
    ensures n <= |s|
    ensures forall i :: 0 <= i < n ==> !IsWhitespace(s[i])
    ensures n < |s| ==> IsWhitespace(s[n])
  {
    if s == "" || IsWhitespace(s[0]) then 0 else 1 + WordEnd(s[1..])
  }

  function Words(s: string): (words: seq<string>)
    ensures forall i :: 0 <= i < |words| ==> IsWord(words[i])
    decreases |s|
  {
    if s == "" then []
    else if IsWhitespace(s[0]) then Words(s[1..])
    else [s[..WordEnd(s)]] + Words(s[WordEnd(s)..])
  }

  function Join(words: seq<string>): string {
    if words == [] then ""
    else if |words| == 1 then words[0]
    else words[0] + " " + Join(words[1..])
  }

  lemma WordEndIs(s: string, n: nat)
    requires n <= |s| && forall i :: 0 <= i < n ==> !IsWhitespace(s[i])
    requires n < |s| ==> IsWhitespace(s[n])
    ensures WordEnd(s) == n
  {
  }

  lemma WordsOfOne(word: string)
    requires IsWord(word)
    ensures Words(word) == [word]
  {
    WordEndIs(word, |word|);
    assert word[..|word|] == word && word[|word|..] == "";
  }

  lemma WordsOfMore(word: string, rest: string)
    requires IsWord(word)
    ensures Words(word + " " + rest) == [word] + Words(rest)
  {
    var s := word + " " + rest;
    WordEndIs(s, |word|);
    assert s[..|word|] == word && s[|word|..] == " " + rest && (" " + rest)[1..] == rest;
  }

  /** Words survive joining and splitting again. */
  lemma {:induction false} WordsOfJoin(words: seq<string>)
    requires forall i :: 0 <= i < |words| ==> IsWord(words[i])
    ensures Words(Join(words)) == words
  {
    if |words| == 1 {
      WordsOfOne(words[0]);
    } else if |words| > 1 {
      WordsOfMore(words[0], Join(words[1..]));
      WordsOfJoin(words[1..]);
    }
  }

  /** White space is single blanks between words. */
  predicate IsNormal(s: string) {
    forall i :: 0 <= i < |s| && IsWhitespace(s[i]) ==>
      s[i] == ' ' && 0 < i < |s| - 1 && !IsWhitespace(s[i + 1])
  }

  lemma {:induction false} JoinIsNormal(words: seq<string>)
    requires forall i :: 0 <= i < |words| ==> IsWord(words[i])
    ensures IsNormal(Join(words)) && (words != [] ==> Join(words) != "")
  {
    if |words| > 1 {
      var rest := Join(words[1..]);
      JoinIsNormal(words[1..]);
      var s, k := words[0] + " " + rest, |words[0]|;
      assert s[k] == ' ' && forall i :: 0 <= i < |rest| ==> s[k + 1 + i] == rest[i];
      assert forall i :: 0 <= i < k ==> s[i] == words[0][i];
      forall i | 0 <= i < |s| && IsWhitespace(s[i])
        ensures s[i] == ' ' && 0 < i < |s| - 1 && !IsWhitespace(s[i + 1])
      {
        if i > k {
          assert s[i] == rest[i - k - 1];
        } else {
          assert s[k + 1] == rest[0];
        }
      }
    }
  }

  lemma {:induction false} NormalIsJoin(s: string)
    requires IsNormal(s)
    ensures Join(Words(s)) == s
    decreases |s|
  {
    if s == "" {
    } else {
      assert !IsWhitespace(s[0]);
      var n := WordEnd(s);
      assert IsWord(s[..n]);
      if n == |s| {
        WordsOfOne(s);
      } else {
        var rest := s[n + 1..];
        assert s == s[..n] + " " + rest;
        assert forall i :: 0 <= i < |rest| ==> rest[i] == s[n + 1 + i];
        NormalIsJoin(rest);
        WordsOfMore(s[..n], rest);
        assert Words(rest) != [];
      }
    }
  }

  // ---------------------------------------------------------------- lines

  /** The length of the first line with its line feed, or of the whole text. */
  function LineLength(s: string): (n: nat)
    ensures n <= |s| && (s != "" ==> n > 0)
    ensures n > 0 && s[n - 1] != '\n' ==> n == |s|
    ensures forall i :: 0 <= i < n - 1 ==> s[i] != '\n'
  {
    if s == "" then 0 else if s[0] == '\n' then 1 else 1 + LineLength(s[1..])
  }

  predicate IsLineFeedFree(s: string) { '\n' !in s }

  lemma {:induction false} LineLengthUnique(s: string, n: nat)
    requires n <= |s| && (s != "" ==> n > 0)
    requires n > 0 && s[n - 1] != '\n' ==> n == |s|
    requires forall i :: 0 <= i < n - 1 ==> s[i] != '\n'
    ensures LineLength(s) == n
  {
    if s != "" && s[0] != '\n' { LineLengthUnique(s[1..], n - 1); }
  }

  lemma LineFeedFreeAt(line: string, i: nat)
    requires IsLineFeedFree(line) && i < |line|
    ensures line[i] != '\n'
  {
    assert line[i] in line;
  }

  lemma LineLengthIs(line: string, rest: string)
    requires IsLineFeedFree(line)
    ensures LineLength(line + "\n" + rest) == |line| + 1
  {
    var s := line + "\n" + rest;
    forall i | 0 <= i < |line| ensures s[i] != '\n' {
      LineFeedFreeAt(line, i);
      assert s[i] == line[i];
    }
    LineLengthUnique(s, |line| + 1);
  }

  lemma LineLengthOfLast(line: string)
    requires IsLineFeedFree(line)
    ensures LineLength(line) == |line|
  {
    forall i | 0 <= i < |line| ensures line[i] != '\n' { LineFeedFreeAt(line, i); }
    LineLengthUnique(line, |line|);
  }

  function StripSuffix(s: string, suffix: string): Option<string> {
    if |suffix| <= |s| && s[|s| - |suffix|..] == suffix then Some(s[..|s| - |suffix|]) else None
  }

  /** A carriage return is dropped only together with a line feed. */
  function StripLineEnd(line: string): string {
    match StripSuffix(line, "\n")
    case None => line
    case Some(body) => StripSuffix(body, "\r").UnwrapOr(body)
  }

  function Lines(s: string): seq<string>
    decreases |s|
  {
    if s == "" then [] else [StripLineEnd(s[..LineLength(s)])] + Lines(s[LineLength(s)..])
  }

  lemma LinesOfMore(line: string, rest: string)
    requires IsLineFeedFree(line)
    ensures Lines(line + "\r\n" + rest) == [line] + Lines(rest)
  {
    var s := line + "\r\n" + rest;
    assert s == (line + "\r") + "\n" + rest;
    LineLengthIs(line + "\r", rest);
    assert s[..|line| + 2] == line + "\r\n" && s[|line| + 2..] == rest;
    StripCrLf(line);
  }

  lemma StripCrLf(line: string)
    ensures StripSuffix(line + "\r\n", "\n") == Some(line + "\r")
    ensures StripLineEnd(line + "\r\n") == line
  {
    var s := line + "\r\n";
    assert s[|s| - 1..] == "\n" && s[..|s| - 1] == line + "\r";
    assert (line + "\r")[|line|..] == "\r" && (line + "\r")[..|line|] == line;
  }

  // ---------------------------------------------------------------- decimal numbers

  const DIGITS := "0123456789"

  predicate IsDigit(c: char) { '0' <= c <= '9' }

  function DigitValue(c: char): nat
    requires IsDigit(c)
  {
    c as int - '0' as int
  }

  predicate AllDigits(s: string) { forall i :: 0 <= i < |s| ==> IsDigit(s[i]) }

  function Value(digits: string): nat
    requires AllDigits(digits)
  {
    if digits == "" then 0 else Value(digits[..|digits| - 1]) * 10 + DigitValue(digits[|digits| - 1])
  }

  function Decimal(n: nat): (digits: string)
    ensures digits != "" && AllDigits(digits)
  {
    if n < 10 then [DIGITS[n]] else Decimal(n / 10) + [DIGITS[n % 10]]
  }

  lemma DigitOfTable(d: nat)
    requires d < 10
    ensures IsDigit(DIGITS[d]) && DigitValue(DIGITS[d]) == d
  {
  }

  lemma ValueSnoc(digits: string, d: char)
    requires AllDigits(digits) && IsDigit(d)
    ensures Value(digits + [d]) == Value(digits) * 10 + DigitValue(d)
  {
    assert (digits + [d])[..|digits|] == digits;
  }

  lemma {:induction false} ValueOfDecimal(n: nat)
    ensures Value(Decimal(n)) == n
  {
    DigitOfTable(n % 10);
    if n < 10 {
      ValueSnoc("", DIGITS[n]);
      assert "" + [DIGITS[n]] == [DIGITS[n]];
    } else {
      ValueOfDecimal(n / 10);
      ValueSnoc(Decimal(n / 10), DIGITS[n % 10]);
    }
  }

  /** The digits of a number, after an optional plus sign. */
  function NumberDigits(s: string): string {
    if s != "" && s[0] == '+' then s[1..] else s
  }

  /** An unsigned number: an optional plus sign, then digits, of a value up to `max`. */
  function ParseNumber(s: string, max: nat): (r: Option<nat>)
    ensures r.Some? ==> r.value <= max
  {
    var digits := NumberDigits(s);
    if digits != "" && AllDigits(digits) && Value(digits) <= max then Some(Value(digits)) else None
  }

  lemma {:induction false} ValueOfPrefix(digits: string, n: nat)
    requires AllDigits(digits) && n <= |digits|
    ensures Value(digits[..n]) <= Value(digits)
  {
    if n == |digits| {
      assert digits[..n] == digits;
    } else {
      ValueOfPrefix(digits[..|digits| - 1], n);
      assert digits[..|digits| - 1][..n] == digits[..n];
    }
  }

  /** The checked accumulation digit by digit: it fails exactly when the whole number does
      not fit, although it stops at the first overflow. */
  method ParseUnsigned(s: string, max: nat) returns (r: Option<nat>)
    ensures r == ParseNumber(s, max)
  {
    if s == "" {
      return None;
    }
    var digits := s;
    if s[0] == '+' {
      digits := s[1..];
      if digits == "" {
        return None;
      }
    }
    var result := 0;
    for i := 0 to |digits|
      invariant AllDigits(digits[..i]) && result == Value(digits[..i]) <= max
    {
      assert digits[..i + 1][..i] == digits[..i];
      if AllDigits(digits) { ValueOfPrefix(digits, i); ValueOfPrefix(digits, i + 1); }
      if result * 10 > max {
        assert AllDigits(digits) ==> Value(digits[..i + 1]) >= result * 10;
        return None;
      }
      if !IsDigit(digits[i]) {
        return None;
      }
      result := result * 10;
      if result + DigitValue(digits[i]) > max {
        return None;
      }
      result := result + DigitValue(digits[i]);
    }
    assert digits[..|digits|] == digits;
    r := Some(result);
  }

  /** A printed number is a word and parses back. */
  lemma DecimalRoundTrip(n: nat, max: nat)
    requires n <= max
    ensures IsWord(Decimal(n)) && ParseNumber(Decimal(n), max) == Some(n)
  {
    ValueOfDecimal(n);
    assert IsDigit(Decimal(n)[0]);
  }
}
