/** isValidEmail of src/handlers/UserHandler.cpp:404-408: the regular expression as a
    value with its language, and a scan that decides membership. */
module EmailAddress {

  /** The fragment of ECMAScript regular expressions the pattern uses. */
  datatype Regex =
    | Class(contains: char -> bool)  // one character of a bracket expression or a literal
    | Plus(contains: char -> bool)   // one or more of them
    | Then(first: Regex, second: Regex)

  ghost predicate Matches(r: Regex, s: string) {
    match r
    case Class(contains) => |s| == 1 && contains(s[0])
    case Plus(contains) => s != "" && All(contains, s)
    case Then(first, second) => exists k :: 0 <= k <= |s| && Matches(first, s[..k]) && Matches(second, s[k..])
  }

  predicate All(contains: char -> bool, s: string) {
    forall i :: 0 <= i < |s| ==> contains(s[i])
  }

  predicate Alphanumeric(c: char) { 'a' <= c <= 'z' || 'A' <= c <= 'Z' || '0' <= c <= '9' }
  predicate LocalChar(c: char) { Alphanumeric(c) || c == '_' || c == '.' || c == '+' || c == '-' }
  predicate HostChar(c: char) { Alphanumeric(c) || c == '-' }
  predicate TailChar(c: char) { HostChar(c) || c == '.' }

  const LOWER: string := "abcdefghijklmnopqrstuvwxyz"
  const UPPER: string := "ABCDEFGHIJKLMNOPQRSTUVWXYZ"
  const DIGITS: string := "0123456789"

  lemma LowerCase(c: char)
    ensures c in LOWER <==> 'a' <= c <= 'z'
  {
    if 'a' <= c <= 'z' {
      assert LOWER[(c - 'a') as nat] == c;
    }
  }

  lemma UpperCase(c: char)
    ensures c in UPPER <==> 'A' <= c <= 'Z'
  {
    if 'A' <= c <= 'Z' {
      assert UPPER[(c - 'A') as nat] == c;
    }
  }

  lemma DecimalDigit(c: char)
    ensures c in DIGITS <==> '0' <= c <= '9'
  {
    if '0' <= c <= '9' {
      assert DIGITS[(c - '0') as nat] == c;
    }
  }

  /** The three bracket expressions, character by character. */
  lemma CharacterClasses(c: char)
    ensures LocalChar(c) <==> c in LOWER || c in UPPER || c in DIGITS || c in "_.+-"
    ensures HostChar(c) <==> c in LOWER || c in UPPER || c in DIGITS || c in "-"
    ensures TailChar(c) <==> c in LOWER || c in UPPER || c in DIGITS || c in "-."
  {
    LowerCase(c);
    UpperCase(c);
    DecimalDigit(c);
  }

  function Literal(c: char): Regex { Class((x: char) => x == c) }

  function DomainPattern(): Regex {
    Then(Plus(HostChar), Then(Literal('.'), Plus(TailChar)))
  }

  /** ^[a-zA-Z0-9_.+-]+@[a-zA-Z0-9-]+\.[a-zA-Z0-9-.]+$ */
  function EmailPattern(): Regex {
    Then(Plus(LocalChar), Then(Literal('@'), DomainPattern()))
  }

  /** The first position at or after `from` that holds `c`, or the length of `s`. */
  function IndexFrom(s: string, c: char, from: nat): (i: nat)
    requires from <= |s|
    ensures from <= i <= |s|
    ensures forall k :: from <= k < i ==> s[k] != c
    ensures i < |s| ==> s[i] == c
    decreases |s| - from
  {
    if from == |s| || s[from] == c then from else IndexFrom(s, c, from + 1)
  }

  predicate IsValidEmail(email: string) {
    var at := IndexFrom(email, '@', 0);
    0 < at < |email| &&
    var dot := IndexFrom(email, '.', at + 1);
    && at + 1 < dot < |email| - 1
    && All(LocalChar, email[..at])
    && All(HostChar, email[at + 1..dot])
    && All(TailChar, email[dot + 1..])
  }

  ghost predicate SplitsAt(email: string, at: nat, dot: nat) {
    && 0 < at && at + 1 < dot < |email| - 1
    && email[at] == '@' && email[dot] == '.'
    && All(LocalChar, email[..at])
    && All(HostChar, email[at + 1..dot])
    && All(TailChar, email[dot + 1..])
  }

  lemma ThenSplits(first: Regex, second: Regex, s: string) returns (k: nat)
    requires Matches(Then(first, second), s)
    ensures k <= |s| && Matches(first, s[..k]) && Matches(second, s[k..])
  {
    k :| 0 <= k <= |s| && Matches(first, s[..k]) && Matches(second, s[k..]);
  }

  lemma LiteralThen(c: char, second: Regex, s: string)
    requires Matches(Then(Literal(c), second), s)
    ensures s != "" && s[0] == c && Matches(second, s[1..])
  {
    var k := ThenSplits(Literal(c), second, s);
    assert k == 1 && s[..1][0] == s[0];
  }

  lemma DomainSplits(domain: string) returns (dot: nat)
    requires Matches(DomainPattern(), domain)
    ensures 0 < dot < |domain| - 1 && domain[dot] == '.'
    ensures All(HostChar, domain[..dot]) && All(TailChar, domain[dot + 1..])
  {
    dot := ThenSplits(Plus(HostChar), Then(Literal('.'), Plus(TailChar)), domain);
    LiteralThen('.', Plus(TailChar), domain[dot..]);
    assert domain[dot..][1..] == domain[dot + 1..];
  }

  lemma PatternSplits(email: string) returns (at: nat, dot: nat)
    requires Matches(EmailPattern(), email)
    ensures SplitsAt(email, at, dot)
  {
    at := ThenSplits(Plus(LocalChar), Then(Literal('@'), DomainPattern()), email);
    LiteralThen('@', DomainPattern(), email[at..]);
    var domain := email[at + 1..];
    assert email[at..][1..] == domain;
    dot := DomainSplits(domain);
    assert domain[..dot] == email[at + 1..at + 1 + dot];
    assert domain[dot + 1..] == email[at + 1 + dot + 1..];
    dot := at + 1 + dot;
  }

  lemma SplitMatches(email: string, at: nat, dot: nat)
    requires SplitsAt(email, at, dot)
    ensures Matches(EmailPattern(), email)
  {
    var p1 := EmailPattern();
    var p2 := p1.second;
    var p3 := p2.second;
    var p4 := p3.second;
    var s2, s3, s4 := email[at..], email[at + 1..], email[dot..];
    assert s4[..1] == [email[dot]] && s4[1..] == email[dot + 1..];
    assert Matches(p4.first, s4[..1]) && Matches(p4.second, s4[1..]);
    assert Matches(p4, s4);
    var k := dot - at - 1;
    assert s3[..k] == email[at + 1..dot] && s3[k..] == s4;
    assert Matches(p3.first, s3[..k]) && Matches(p3.second, s3[k..]);
    assert Matches(p3, s3);
    assert s2[..1] == [email[at]] && s2[1..] == s3;
    assert Matches(p2.first, s2[..1]) && Matches(p2.second, s2[1..]);
    assert Matches(p2, s2);
    assert Matches(p1.first, email[..at]) && Matches(p1.second, email[at..]);
  }

  /** The scan accepts exactly the language of the regular expression. */
  lemma ScanDecidesPattern(email: string)
    ensures IsValidEmail(email) <==> Matches(EmailPattern(), email)
  {
    if Matches(EmailPattern(), email) {
      var at, dot := PatternSplits(email);
      forall k | 0 <= k < at ensures email[k] != '@' {
        assert LocalChar(email[..at][k]);
      }
      assert IndexFrom(email, '@', 0) == at;
      forall k | at + 1 <= k < dot ensures email[k] != '.' {
        assert HostChar(email[at + 1..dot][k - at - 1]);
      }
      assert IndexFrom(email, '.', at + 1) == dot;
    }
    if IsValidEmail(email) {
      var at := IndexFrom(email, '@', 0);
      SplitMatches(email, at, IndexFrom(email, '.', at + 1));
    }
  }

  /** No accepted address holds a line break, so none can add a header line. */
  lemma ValidEmailIsOneLine(email: string, k: nat)
    requires IsValidEmail(email) && k < |email|
    ensures email[k] != '\r' && email[k] != '\n'
  {
    var at := IndexFrom(email, '@', 0);
    var dot := IndexFrom(email, '.', at + 1);
    if k < at {
      assert LocalChar(email[..at][k]);
    } else if at < k < dot {
      assert HostChar(email[at + 1..dot][k - at - 1]);
    } else if dot < k {
      assert TailChar(email[dot + 1..][k - dot - 1]);
    }
  }
}
