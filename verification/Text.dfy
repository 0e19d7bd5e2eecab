/** Words and numbers as the C++ library reads them: `istringstream >> word`, `to_string`,
    `atoi` and `stoi`. A `string` stands for a C string, so it holds no NUL unless said otherwise. */
module Text {

  datatype Option<+T> = None | Some(value: T)

  const INT_MAX: int := 0x7fff_ffff
  const INT_MIN: int := -0x8000_0000
  const LONG_MAX: int := 0x7fff_ffff_ffff_ffff
  const LONG_MIN: int := -0x8000_0000_0000_0000

  // ----- White space and words -----

  /** `isspace` in the C locale: blank, and the five controls from tab to carriage return. */
  predicate IsSpace(c: char) {
    c == ' ' || '\t' <= c <= '\r'
  }

  predicate Blank(s: string) {
    forall i | 0 <= i < |s| :: IsSpace(s[i])
  }

  predicate Solid(s: string) {
    forall i | 0 <= i < |s| :: !IsSpace(s[i])
  }

  predicate IsToken(s: string) {
    s != "" && Solid(s)
  }

  predicate AllTokens(ts: seq<string>) {
    forall i | 0 <= i < |ts| :: IsToken(ts[i])
  }

  function LeadingSpaces(s: string): (n: nat)
    ensures n <= |s|
    ensures n < |s| ==> !IsSpace(s[n])
  {
    if s == "" || !IsSpace(s[0]) then 0 else 1 + LeadingSpaces(s[1..])
  }

  function WordLength(s: string): (n: nat)
    ensures n <= |s|
    ensures n < |s| ==> IsSpace(s[n])
  {
    if s == "" || IsSpace(s[0]) then 0 else 1 + WordLength(s[1..])
  }

  function SkipSpaces(s: string): (r: string)
    ensures |r| <= |s|
    ensures r != "" ==> !IsSpace(r[0])
  {
    s[LeadingSpaces(s)..]
  }

  /** The words of a line. */
  function Tokens(s: string): seq<string>
    decreases |s|
  {
    var r := SkipSpaces(s);
    var n := WordLength(r);
    if n == 0 then [] else [r[..n]] + Tokens(r[n..])
  }

  method SkipWhite(line: string, pos: nat) returns (next: nat)
    requires pos <= |line|
    ensures next == pos + LeadingSpaces(line[pos..])
  {
    next := pos;
    while next < |line| && IsSpace(line[next])
      invariant pos <= next <= |line|
      invariant next - pos + LeadingSpaces(line[next..]) == LeadingSpaces(line[pos..])
    {
      assert line[next..][1..] == line[next + 1..];
      next := next + 1;
    }
  }

  method TakeWord(line: string, pos: nat) returns (next: nat)
    requires pos <= |line|
    ensures next == pos + WordLength(line[pos..])
  {
    next := pos;
    while next < |line| && !IsSpace(line[next])
      invariant pos <= next <= |line|
      invariant next - pos + WordLength(line[next..]) == WordLength(line[pos..])
    {
      assert line[next..][1..] == line[next + 1..];
      next := next + 1;
    }
  }

  /** `stream >> word`, from position `pos` of the line: skip white space, take what follows. */
  method Extract(line: string, pos: nat) returns (word: string, next: nat)
    requires pos <= |line|
    ensures pos <= next <= |line|
    ensures Tokens(line[pos..]) == if word == "" then [] else [word] + Tokens(line[next..])
    ensures word != "" ==> pos < next
  {
    var start := SkipWhite(line, pos);
    ghost var rest := SkipSpaces(line[pos..]);
    assert rest == line[start..];
    next := TakeWord(line, start);
    word := line[start..next];
    assert word == rest[..|word|] && line[next..] == rest[|word|..];
  }

  /** `Tokenize` and `TokenizeDeluxe`: extract words until the stream fails. */
  method Tokenize(line: string) returns (words: seq<string>)
    ensures words == Tokens(line)
  {
    hide Tokens;
    words := [];
    var pos, good := 0, true;
    assert line[pos..] == line;
    while good
      invariant pos <= |line|
      invariant words + (if good then Tokens(line[pos..]) else []) == Tokens(line)
      decreases |line| - pos, good
    {
      var word, next := Extract(line, pos);
      assert words + ([word] + Tokens(line[next..])) == words + [word] + Tokens(line[next..]);
      good := word != "";
      if word != "" {
        words := words + [word];
      }
      pos := next;
    }
  }

  lemma {:induction false} LeadingSpacesAreBlank(s: string)
    ensures Blank(s[..LeadingSpaces(s)])
  {
    if s != "" && IsSpace(s[0]) {
      LeadingSpacesAreBlank(s[1..]);
      assert s[..LeadingSpaces(s)] == [s[0]] + s[1..][..LeadingSpaces(s[1..])];
    }
  }

  lemma {:induction false} WordIsSolid(s: string)
    ensures Solid(s[..WordLength(s)])
  {
    if s != "" && !IsSpace(s[0]) {
      WordIsSolid(s[1..]);
      assert s[..WordLength(s)] == [s[0]] + s[1..][..WordLength(s[1..])];
    }
  }

  /** Every token is non-empty and free of white space. */
  lemma {:induction false} TokensAreWords(s: string)
    ensures AllTokens(Tokens(s))
    decreases |s|
  {
    var r := SkipSpaces(s);
    var n := WordLength(r);
    if n > 0 {
      WordIsSolid(r);
      TokensAreWords(r[n..]);
    }
  }

  function Flatten(ts: seq<string>): string {
    if ts == [] then "" else ts[0] + Flatten(ts[1..])
  }

  function WithoutSpaces(s: string): string {
    if s == "" then ""
    else (if IsSpace(s[0]) then "" else [s[0]]) + WithoutSpaces(s[1..])
  }

  lemma {:induction false} WithoutSpacesConcat(a: string, b: string)
    ensures WithoutSpaces(a + b) == WithoutSpaces(a) + WithoutSpaces(b)
  {
    if a == "" {
      assert a + b == b;
    } else {
      assert (a + b)[1..] == a[1..] + b;
      WithoutSpacesConcat(a[1..], b);
    }
  }

  lemma {:induction false} WithoutSpacesExtremes(s: string)
    ensures Blank(s) ==> WithoutSpaces(s) == ""
    ensures Solid(s) ==> WithoutSpaces(s) == s
  {
    if s != "" {
      assert s == [s[0]] + s[1..];
      WithoutSpacesExtremes(s[1..]);
    }
  }

  lemma {:induction false} LeadingSpacesOf(gap: string, rest: string)
    requires Blank(gap) && (rest == "" || !IsSpace(rest[0]))
    ensures LeadingSpaces(gap + rest) == |gap|
  {
    if gap == "" {
      assert gap + rest == rest;
    } else {
      assert (gap + rest)[1..] == gap[1..] + rest;
      LeadingSpacesOf(gap[1..], rest);
    }
  }

  lemma {:induction false} WordLengthOf(word: string, rest: string)
    requires Solid(word) && (rest == "" || IsSpace(rest[0]))
    ensures WordLength(word + rest) == |word|
  {
    if word == "" {
      assert word + rest == rest;
    } else {
      assert (word + rest)[1..] == word[1..] + rest;
      WordLengthOf(word[1..], rest);
    }
  }

  /** A gap, a whole word and whatever follows the word: the word comes out first. */
  lemma TokensOfWord(gap: string, word: string, rest: string)
    requires Blank(gap) && IsToken(word) && (rest == "" || IsSpace(rest[0]))
    ensures Tokens(gap + word + rest) == [word] + Tokens(rest)
  {
    var s := gap + word + rest;
    assert s == gap + (word + rest);
    LeadingSpacesOf(gap, word + rest);
    assert SkipSpaces(s) == word + rest;
    WordLengthOf(word, rest);
  }

  /** Two words separated by one space. */
  lemma TokensOfTwoWords(first: string, second: string, rest: string)
    requires IsToken(first) && IsToken(second) && (rest == "" || IsSpace(rest[0]))
    ensures Tokens(first + " " + second + rest) == [first, second] + Tokens(rest)
  {
    hide Tokens;
    var tail := " " + second + rest;
    TokensOfWord(" ", second, rest);
    TokensOfWord("", first, tail);
    assert "" + first + tail == first + " " + second + rest;
  }

  lemma TokensOfBlank(s: string)
    requires Blank(s)
    ensures Tokens(s) == []
  {
    LeadingSpacesOf(s, "");
    assert s + "" == s;
  }

  /** A blank prefix changes nothing. */
  lemma TokensAfterGap(gap: string, s: string)
    requires Blank(gap)
    ensures Tokens(gap + s) == Tokens(s)
  {
    var k := LeadingSpaces(s);
    LeadingSpacesAreBlank(s);
    assert gap + s == (gap + s[..k]) + s[k..];
    assert s == s[..k] + s[k..];
    LeadingSpacesOf(gap + s[..k], s[k..]);
    assert SkipSpaces(gap + s) == SkipSpaces(s);
  }

  /** What the first extraction does to a line that has a word in it. */
  lemma FirstWordOf(s: string) returns (lead: string, word: string, rest: string)
    requires Tokens(s) != []
    ensures s == lead + word + rest && Blank(lead) && IsToken(word)
    ensures rest == "" || IsSpace(rest[0])
    ensures Tokens(s) == [word] + Tokens(rest)
  {
    var r := SkipSpaces(s);
    LeadingSpacesAreBlank(s);
    WordIsSolid(r);
    var n := WordLength(r);
    lead, word, rest := s[..LeadingSpaces(s)], r[..n], r[n..];
  }

  lemma NoTokenMeansBlank(s: string)
    requires Tokens(s) == []
    ensures Blank(s)
  {
    assert SkipSpaces(s) == "";
    LeadingSpacesAreBlank(s);
    assert s[..LeadingSpaces(s)] == s;
  }

  /** Tokenizing loses and reorders nothing but white space. */
  lemma {:induction false} TokensKeepEveryCharacter(s: string)
    ensures Flatten(Tokens(s)) == WithoutSpaces(s)
    decreases |s|
  {
    hide Tokens;
    if Tokens(s) == [] {
      NoTokenMeansBlank(s);
      WithoutSpacesExtremes(s);
    } else {
      var lead, word, rest := FirstWordOf(s);
      WithoutSpacesConcat(lead + word, rest);
      WithoutSpacesConcat(lead, word);
      WithoutSpacesExtremes(lead);
      WithoutSpacesExtremes(word);
      TokensKeepEveryCharacter(rest);
    }
  }

  /** So does a blank suffix. */
  lemma {:induction false} TokensBeforeGap(s: string, gap: string)
    requires Blank(gap)
    ensures Tokens(s + gap) == Tokens(s)
    decreases |s|
  {
    hide Tokens;
    if Tokens(s) == [] {
      NoTokenMeansBlank(s);
      TokensOfBlank(s + gap);
    } else {
      var lead, word, rest := FirstWordOf(s);
      TokensBeforeGap(rest, gap);
      assert s + gap == lead + word + (rest + gap);
      TokensOfWord(lead, word, rest + gap);
    }
  }

  /** Words laid out with arbitrary white space: `gaps[i]` stands before `words[i]`, `last` at the end. */
  function Layout(gaps: seq<string>, words: seq<string>, last: string): string
    requires |gaps| == |words|
  {
    if words == [] then last else gaps[0] + words[0] + Layout(gaps[1..], words[1..], last)
  }

  /** Any layout of a word list, with at least one white-space character between words, tokenizes
      back to exactly that list. */
  lemma {:induction false} TokensOfLayout(gaps: seq<string>, words: seq<string>, last: string)
    requires |gaps| == |words| && AllTokens(words) && Blank(last)
    requires forall i | 0 <= i < |gaps| :: Blank(gaps[i]) && (i > 0 ==> gaps[i] != "")
    ensures Tokens(Layout(gaps, words, last)) == words
  {
    if words == [] {
      TokensOfBlank(last);
    } else {
      var rest := Layout(gaps[1..], words[1..], last);
      assert rest == "" || IsSpace(rest[0]) by {
        if |words| > 1 {
          assert gaps[1..][0] == gaps[1];
        }
      }
      TokensOfWord(gaps[0], words[0], rest);
      TokensOfLayout(gaps[1..], words[1..], last);
    }
  }

  // ----- Numbers -----

  predicate IsDigit(c: char) {
    '0' <= c <= '9'
  }

  predicate AllDigits(s: string) {
    forall i | 0 <= i < |s| :: IsDigit(s[i])
  }

  function DigitRun(s: string): (n: nat)
    ensures n <= |s| && AllDigits(s[..n])
  {
    if s == "" || !IsDigit(s[0]) then 0 else 1 + DigitRun(s[1..])
  }

  function DigitsValue(s: string): nat
    requires AllDigits(s)
  {
    if s == "" then 0
    else 10 * DigitsValue(s[..|s| - 1]) + (s[|s| - 1] as int - '0' as int)
  }

  function NatToString(n: nat): (s: string)
    ensures s != "" && AllDigits(s) && DigitsValue(s) == n
  {
    var last := [('0' as int + n % 10) as char];
    if n < 10 then last
    else
      var front := NatToString(n / 10);
      assert (front + last)[..|front + last| - 1] == front;
      front + last
  }

  /** `std::to_string(int)`. */
  function IntToString(n: int): (s: string)
    ensures IsToken(s)
  {
    if n < 0 then "-" + NatToString(-n) else NatToString(n)
  }

  /** What `strtol` in base 10 reads before it clamps: `None` when no digit follows the sign. */
  function ParseInt(s: string): Option<int> {
    var r := SkipSpaces(s);
    var signed := r != "" && (r[0] == '-' || r[0] == '+');
    var digits := if signed then r[1..] else r;
    var n := DigitRun(digits);
    if n == 0 then None
    else
      var value: int := DigitsValue(digits[..n]);
      Some(if signed && r[0] == '-' then -value else value)
  }

  /** Conversion of a `long` to a 32-bit `int`. */
  function ToInt(n: int): (r: int)
    ensures INT_MIN <= r <= INT_MAX
    ensures INT_MIN <= n <= INT_MAX ==> r == n
  {
    (n - INT_MIN) % 0x1_0000_0000 + INT_MIN
  }

  /** `atoi`, as glibc defines it on values out of range: `(int) strtol(s)`. */
  function Atoi(s: string): (r: int)
    ensures INT_MIN <= r <= INT_MAX
  {
    match ParseInt(s)
    case None => 0
    case Some(n) => ToInt(if n > LONG_MAX then LONG_MAX else if n < LONG_MIN then LONG_MIN else n)
  }

  /** `std::stoi`; `None` stands for the exceptions it throws. */
  function Stoi(s: string): Option<int> {
    match ParseInt(s)
    case None => None
    case Some(n) => if INT_MIN <= n <= INT_MAX then Some(n) else None
  }

  lemma {:induction false} DigitRunOfDigits(s: string)
    requires AllDigits(s)
    ensures DigitRun(s) == |s|
  {
    if s != "" {
      DigitRunOfDigits(s[1..]);
    }
  }

  lemma NothingToSkip(s: string)
    requires IsToken(s)
    ensures SkipSpaces(s) == s
  {
  }

  lemma PrintedIntParses(n: int)
    ensures ParseInt(IntToString(n)) == Some(n)
  {
    NothingToSkip(IntToString(n));
    var digits := NatToString(if n < 0 then -n else n);
    DigitRunOfDigits(digits);
    assert digits[..|digits|] == digits;
    if n < 0 {
      assert IntToString(n)[1..] == digits;
    }
  }

  /** A printed `int` is one word that both parsers read back. */
  lemma PrintedIntReadsBack(n: int)
    requires INT_MIN <= n <= INT_MAX
    ensures Atoi(IntToString(n)) == n
    ensures Stoi(IntToString(n)) == Some(n)
  {
    PrintedIntParses(n);
  }

  /** No number starts with a letter, so `stoi` throws on such a word. */
  lemma StoiRejectsLetters(s: string)
    requires s != "" && !IsSpace(s[0]) && !IsDigit(s[0]) && s[0] != '-' && s[0] != '+'
    ensures Stoi(s) == None
  {
  }
}
