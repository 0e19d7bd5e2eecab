/** Which characters part words, how numbers are printed, and what the C library reads as a number. */
module Numerals {
  import opened Text

  /** Exactly the six white-space characters separate words. */
  lemma SeparatorsAre(c: char)
    ensures Tokens("a" + [c] + "b") == ["a", "b"] <==> c == ' ' || c as int in {9, 10, 11, 12, 13}
  {
    hide Tokens;
    var line := "a" + [c] + "b";
    if IsSpace(c) {
      TokensOfWord("", "a", [c] + "b");
      TokensOfWord([c], "b", "");
      TokensOfBlank("");
      assert "" + "a" + ([c] + "b") == line && [c] + "b" + "" == [c] + "b";
    } else {
      TokensOfWord("", line, "");
      TokensOfBlank("");
      assert "" + line + "" == line;
    }
  }

  /** A number is printed as its digits, without a leading zero, a minus in front if it is negative. */
  lemma {:induction false} PrintedNatIsPlain(n: nat)
    ensures var s := NatToString(n); s[0] == '0' ==> s == "0"
    ensures n == 0 <==> NatToString(n) == "0"
  {
    if n >= 10 {
      PrintedNatIsPlain(n / 10);
    }
  }

  lemma PrintedIntIsPlain(n: int)
    ensures var s := IntToString(n); var digits := if n < 0 then s[1..] else s;
      && (n < 0 ==> s[0] == '-') && digits != "" && AllDigits(digits) && (digits[0] == '0' ==> digits == "0")
      && DigitsValue(digits) == if n < 0 then -n else n
  {
    PrintedNatIsPlain(if n < 0 then -n else n);
    if n < 0 {
      assert IntToString(n)[1..] == NatToString(-n);
    }
  }

  lemma {:induction false} DigitRunThen(digits: string, rest: string)
    requires AllDigits(digits) && (rest == "" || !IsDigit(rest[0]))
    ensures DigitRun(digits + rest) == |digits|
  {
    if digits == "" {
      assert digits + rest == rest;
    } else {
      assert (digits + rest)[1..] == digits[1..] + rest;
      DigitRunThen(digits[1..], rest);
    }
  }

  lemma SkipGap(gap: string, body: string)
    requires Blank(gap) && (body == "" || !IsSpace(body[0]))
    ensures SkipSpaces(gap + body) == body
  {
    LeadingSpacesOf(gap, body);
  }

  lemma FirstOfBody(sign: string, digits: string, rest: string)
    requires (sign == "" || sign == "+" || sign == "-") && AllDigits(digits)
    requires digits == "" && sign == "" ==> rest == "" || (!IsSpace(rest[0]) && rest[0] != '+' && rest[0] != '-')
    ensures var body := sign + digits + rest;
      && (body == "" || !IsSpace(body[0]))
      && (sign == "" ==> body == digits + rest && (body == "" || (body[0] != '+' && body[0] != '-')))
      && (sign != "" ==> body != "" && body[1..] == digits + rest && (body[0] == '-' || body[0] == '+'))
      && (sign != "" ==> (body[0] == '-' <==> sign == "-"))
  {
    assert sign == "" ==> sign + digits + rest == digits + rest;
    assert digits != "" ==> IsDigit((digits + rest)[0]);
  }

  lemma ParsedBody(s: string, body: string, signed: bool, negative: bool, tail: string, n: nat)
    requires SkipSpaces(s) == body && (signed <==> body != "" && (body[0] == '-' || body[0] == '+'))
    requires (negative <==> signed && body[0] == '-') && tail == (if signed then body[1..] else body) && n == DigitRun(tail)
    ensures var value: int := DigitsValue(tail[..n]);
      ParseInt(s) == if n == 0 then None else Some(if negative then -value else value)
  {
    hide SkipSpaces, DigitRun, DigitsValue;
  }

  /** A number is read from white space, a sign or none, digits -- leading zeros too -- and whatever follows
      them that is no digit. Without a digit there is no number. */
  lemma NumberIsRead(gap: string, sign: string, digits: string, rest: string)
    requires Blank(gap) && (sign == "" || sign == "+" || sign == "-") && AllDigits(digits)
    requires rest == "" || !IsDigit(rest[0])
    requires digits == "" && sign == "" ==> rest == "" || (!IsSpace(rest[0]) && rest[0] != '+' && rest[0] != '-')
    ensures var value: int := DigitsValue(digits);
      ParseInt(gap + (sign + digits + rest)) == if digits == "" then None else Some(if sign == "-" then -value else value)
  {
    FirstOfBody(sign, digits, rest);
    DigitRunThen(digits, rest);
    BodyIsRead(gap, sign + digits + rest, digits + rest, digits, sign != "", sign == "-");
  }

  lemma BodyIsRead(gap: string, body: string, tail: string, digits: string, signed: bool, negative: bool)
    requires Blank(gap) && (body == "" || !IsSpace(body[0])) && AllDigits(digits)
    requires (signed <==> body != "" && (body[0] == '-' || body[0] == '+')) && (negative <==> signed && body[0] == '-')
    requires tail == (if signed then body[1..] else body) && digits <= tail && DigitRun(tail) == |digits|
    ensures var value: int := DigitsValue(digits);
      ParseInt(gap + body) == if digits == "" then None else Some(if negative then -value else value)
  {
    SkipGap(gap, body);
    assert tail[..|digits|] == digits;
    hide *;
    ParsedBody(gap + body, body, signed, negative, tail, |digits|);
  }

  /** Leading zeros do not count, and each digit counts ten times the one after it. */
  lemma {:induction false} DigitsCount(digits: string)
    requires AllDigits(digits)
    ensures DigitsValue("0" + digits) == DigitsValue(digits)
    ensures forall c | IsDigit(c) :: DigitsValue(digits + [c]) == 10 * DigitsValue(digits) + (c as int - 48)
  {
    forall c | IsDigit(c)
      ensures DigitsValue(digits + [c]) == 10 * DigitsValue(digits) + (c as int - 48)
    {
      assert (digits + [c])[..|digits|] == digits;
    }
    if digits == "" {
      assert "0" + digits == "0";
    } else {
      assert ("0" + digits)[..|digits|] == "0" + digits[..|digits| - 1];
      DigitsCount(digits[..|digits| - 1]);
    }
  }

  /** `atoi` and `stoi` on such a word: the number, if it is an `int`. Out of range `stoi` throws, and `atoi`
      clamps to `long` and keeps the low 32 bits. */
  lemma NumberBecomes(s: string, n: int)
    requires ParseInt(s) == Some(n)
    ensures INT_MIN <= n <= INT_MAX ==> Atoi(s) == n && Stoi(s) == Some(n)
    ensures !(INT_MIN <= n <= INT_MAX) ==> Stoi(s) == None
    ensures var l := if n > LONG_MAX then LONG_MAX else if n < LONG_MIN then LONG_MIN else n;
      -0x8000_0000 <= Atoi(s) < 0x8000_0000 && (Atoi(s) - l) % 0x1_0000_0000 == 0
  {
  }

  lemma NoNumber(s: string)
    requires ParseInt(s) == None
    ensures Atoi(s) == 0 && Stoi(s) == None
  {
  }
}
