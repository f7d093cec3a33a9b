/** std::to_string and atoi, which carry the account id through a token
    (src/handlers/UserHandler.cpp:140-142, 183). */
module Decimal {

  function DigitChar(d: nat): char
    requires d < 10
  {
    '0' + d as char
  }

  predicate IsDigit(c: char) { '0' <= c <= '9' }

  function DigitValue(c: char): nat
    requires IsDigit(c)
  {
    (c - '0') as nat
  }

  function Digits(n: nat): string {
    if n < 10 then [DigitChar(n)] else Digits(n / 10) + [DigitChar(n % 10)]
  }

  function ToString(n: int): string {
    if n < 0 then "-" + Digits(-n) else Digits(n)
  }

  predicate IsSpace(c: char) { c == ' ' || '\t' <= c <= '\r' }

  /** The value of the leading digits of `s`, continuing a number read so far. */
  function ReadDigits(s: string, soFar: nat): nat {
    if s == "" || !IsDigit(s[0]) then soFar else ReadDigits(s[1..], soFar * 10 + DigitValue(s[0]))
  }

  /** Leading white space, an optional sign, then digits up to the first other character. */
  function Atoi(s: string): int {
    if s == "" then 0
    else if IsSpace(s[0]) then Atoi(s[1..])
    else if s[0] == '-' then -(ReadDigits(s[1..], 0) as int)
    else if s[0] == '+' then ReadDigits(s[1..], 0)
    else ReadDigits(s, 0)
  }

  lemma {:induction false} ReadAppended(s: string, d: nat, soFar: nat)
    requires forall i :: 0 <= i < |s| ==> IsDigit(s[i])
    requires d < 10
    ensures ReadDigits(s + [DigitChar(d)], soFar) == ReadDigits(s, soFar) * 10 + d
  {
    if s == "" {
      assert (s + [DigitChar(d)])[1..] == "";
    } else {
      assert (s + [DigitChar(d)])[1..] == s[1..] + [DigitChar(d)];
      ReadAppended(s[1..], d, soFar * 10 + DigitValue(s[0]));
    }
  }

  lemma {:induction false} DigitsReadBack(n: nat)
    ensures Digits(n) != "" && forall i :: 0 <= i < |Digits(n)| ==> IsDigit(Digits(n)[i])
    ensures ReadDigits(Digits(n), 0) == n
  {
    if n >= 10 {
      DigitsReadBack(n / 10);
      ReadAppended(Digits(n / 10), n % 10, 0);
    }
  }

  lemma {:induction false} ReadStops(s: string, rest: string, soFar: nat)
    requires forall i :: 0 <= i < |s| ==> IsDigit(s[i])
    requires rest == "" || !IsDigit(rest[0])
    ensures ReadDigits(s + rest, soFar) == ReadDigits(s, soFar)
  {
    if s == "" {
      assert s + rest == rest;
    } else {
      assert (s + rest)[1..] == s[1..] + rest;
      ReadStops(s[1..], rest, soFar * 10 + DigitValue(s[0]));
    }
  }

  /** The digit of `d` is the d-th of the ten. */
  lemma DigitCharIs(d: nat)
    requires d < 10
    ensures DigitChar(d) == "0123456789"[d]
  {
  }

  const SPACES: string := " \t\n\U{000B}\U{000C}\r"

  lemma {:induction false} AtoiSkipsSpace(space: string, s: string)
    requires forall i :: 0 <= i < |space| ==> space[i] in SPACES
    ensures Atoi(space + s) == Atoi(s)
  {
    if space == "" {
      assert space + s == s;
    } else {
      assert (space + s)[1..] == space[1..] + s;
      AtoiSkipsSpace(space[1..], s);
    }
  }

  lemma SpacesAndDigits(c: char)
    ensures IsSpace(c) <==> c in SPACES
    ensures IsDigit(c) <==> c in "0123456789"
  {
    if IsDigit(c) {
      assert "0123456789"[DigitValue(c)] == c;
    }
  }

  lemma DigitsThenRest(n: nat, rest: string)
    requires rest == "" || !IsDigit(rest[0])
    ensures Digits(n) + rest != "" && IsDigit((Digits(n) + rest)[0])
    ensures ReadDigits(Digits(n) + rest, 0) == n
  {
    DigitsReadBack(n);
    ReadStops(Digits(n), rest, 0);
  }

  lemma AtoiOfSigned(t: string)
    requires t != "" && IsDigit(t[0])
    ensures Atoi(t) == ReadDigits(t, 0) && Atoi("+" + t) == ReadDigits(t, 0) && Atoi("-" + t) + ReadDigits(t, 0) == 0
  {
    assert ("+" + t)[1..] == t && ("-" + t)[1..] == t;
  }

  lemma AtoiOfPrinted(n: int, rest: string)
    requires rest == "" || !IsDigit(rest[0])
    ensures Atoi(ToString(n) + rest) == n
  {
    var digits := Digits(if n < 0 then -n else n);
    DigitsThenRest(if n < 0 then -n else n, rest);
    AtoiOfSigned(digits + rest);
    if n < 0 {
      assert ToString(n) + rest == "-" + (digits + rest);
    } else {
      assert ToString(n) + rest == digits + rest;
    }
  }

  /** Behind white space, the number up to the first other character. */
  lemma AtoiOfText(space: string, n: int, rest: string)
    requires forall i :: 0 <= i < |space| ==> space[i] in SPACES
    requires rest == "" || rest[0] !in "0123456789"
    ensures Atoi(space + (ToString(n) + rest)) == n
  {
    if rest != "" {
      SpacesAndDigits(rest[0]);
    }
    AtoiSkipsSpace(space, ToString(n) + rest);
    AtoiOfPrinted(n, rest);
  }

  /** What does not begin with a number counts as 0. */
  lemma AtoiOfOther(space: string, s: string)
    requires forall i :: 0 <= i < |space| ==> space[i] in SPACES
    requires s == "" || (s[0] !in SPACES && s[0] !in "0123456789" && s[0] !in "+-")
    ensures Atoi(space + s) == 0
  {
    AtoiSkipsSpace(space, s);
    if s != "" {
      SpacesAndDigits(s[0]);
      assert "+-"[0] == '+' && "+-"[1] == '-';
    }
  }

  /** Printing an integer and reading it back with atoi gives the integer. */
  lemma AtoiOfToString(n: int)
    ensures Atoi(ToString(n)) == n
  {
    DigitsReadBack(if n < 0 then -n else n);
    if n >= 0 {
      assert IsDigit(Digits(n)[0]);
    } else {
      assert ToString(n)[1..] == Digits(-n);
    }
  }
}
