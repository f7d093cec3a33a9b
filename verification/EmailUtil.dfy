/** Message assembly and chunked upload of src/utils/EmailUtil.cpp. */
module EmailUtil {
  import opened Arithmetic
  import Decimal
  import opened EmailAddress
  import opened Wrappers

  // ---------------------------------------------------------------------------------
  // The message
  // ---------------------------------------------------------------------------------

  const CRLF: string := "\r\n"

  function FormatMessage(to: string, from: string, subject: string, body: string): string {
    "To: " + to + CRLF + "From: " + from + CRLF + "Subject: " + subject + CRLF + CRLF + body
  }

  /** Where the first line of `s` ends: at its first CRLF, or at |s| when there is none. */
  function LineEnd(s: string): (e: nat)
    ensures e == |s| || (e + 2 <= |s| && s[e..e + 2] == CRLF)
  {
    if |s| < 2 then |s|
    else if s[..2] == CRLF then 0
    else 1 + LineEnd(s[1..])
  }

  predicate HasLineBreak(s: string) { LineEnd(s) < |s| }

  lemma {:induction false} LineBreakIs(s: string)
    ensures HasLineBreak(s) <==> exists i :: 0 <= i < |s| - 1 && s[i] == '\r' && s[i + 1] == '\n'
  {
    if |s| >= 2 {
      LineBreakIs(s[1..]);
      assert s[..2] == [s[0], s[1]];
      if s[..2] == CRLF {
        assert s[0] == s[..2][0] && s[1] == s[..2][1];
      } else if i :| 0 <= i < |s| - 1 && s[i] == '\r' && s[i + 1] == '\n' {
        assert i > 0 ==> s[1..][i - 1] == '\r' && s[1..][i] == '\n';
      }
      if i :| 0 <= i < |s[1..]| - 1 && s[1..][i] == '\r' && s[1..][i + 1] == '\n' {
        assert s[i + 1] == '\r' && s[i + 2] == '\n';
      }
    }
  }

  datatype Message = Message(headers: seq<string>, body: string)

  /** Header lines up to the first empty line, then the body (sections 2.1 and 2.2 of RFC 5322). */
  function ParseMessage(s: string): Option<Message> {
    var e := LineEnd(s);
    if e == |s| then None
    else if e == 0 then Some(Message([], s[2..]))
    else
      WithHeader(s[..e], ParseMessage(s[e + 2..]))
  }

  function WithHeader(line: string, rest: Option<Message>): Option<Message> {
    if rest.None? then None else Some(Message([line] + rest.value.headers, rest.value.body))
  }

  lemma {:induction false} LineEndOfLine(line: string, rest: string)
    requires !HasLineBreak(line)
    ensures LineEnd(line + CRLF + rest) == |line|
  {
    var s := line + CRLF + rest;
    if line == "" {
      assert s[..2] == CRLF;
    } else {
      assert s[1..] == line[1..] + CRLF + rest;
      if |line| >= 2 {
        assert s[..2] == line[..2];
      } else {
        assert s[..2] == [line[0], '\r'];
      }
      LineEndOfLine(line[1..], rest);
    }
  }

  lemma {:induction false} LineEndOfBroken(line: string, rest: string)
    requires HasLineBreak(line)
    ensures LineEnd(line + rest) == LineEnd(line)
  {
    var s := line + rest;
    assert s[..2] == line[..2];
    if line[..2] != CRLF {
      assert s[1..] == line[1..] + rest;
      LineEndOfBroken(line[1..], rest);
    }
  }

  /** A field name in front of a value neither hides nor adds a line break. */
  lemma {:induction false} FieldLineBreak(name: string, value: string)
    requires forall i :: 0 <= i < |name| ==> name[i] != '\r'
    ensures HasLineBreak(name + value) <==> HasLineBreak(value)
  {
    if name == "" {
      assert name + value == value;
    } else {
      var s := name + value;
      assert s[1..] == name[1..] + value && s[0] == name[0];
      assert |s| >= 2 ==> s[..2][0] != CRLF[0];
      FieldLineBreak(name[1..], value);
    }
  }

  /** One header line in front of a text: read back if it has no line break, misread if it has. */
  lemma ParseHeaderLine(line: string, rest: string)
    requires line != ""
    ensures var p := ParseMessage(line + CRLF + rest);
            if HasLineBreak(line) then p.Some? && p.value.headers != [] ==> p.value.headers[0] != line
            else p == WithHeader(line, ParseMessage(rest))
  {
    var s := line + CRLF + rest;
    if HasLineBreak(line) {
      assert s == line + (CRLF + rest);
      LineEndOfBroken(line, CRLF + rest);
      assert |s[..LineEnd(s)]| < |line|;
    } else {
      LineEndOfLine(line, rest);
      assert s[..|line|] == line && s[|line| + 2..] == rest;
    }
  }

  function HeaderLines(to: string, from: string, subject: string): seq<string> {
    ["To: " + to, "From: " + from, "Subject: " + subject]
  }

  /** Splitting at the first empty line gives back the three headers and the body exactly
      when none of the three values contains a line break. */
  lemma MessageRoundTrip(to: string, from: string, subject: string, body: string)
    ensures ParseMessage(FormatMessage(to, from, subject, body)) ==
              Some(Message(HeaderLines(to, from, subject), body))
            <==> !HasLineBreak(to) && !HasLineBreak(from) && !HasLineBreak(subject)
  {
    var lines := HeaderLines(to, from, subject);
    FormatIsLines(to, from, subject, body);
    FieldLineBreak("To: ", to);
    FieldLineBreak("From: ", from);
    FieldLineBreak("Subject: ", subject);
    if i :| 0 <= i < |lines| && HasLineBreak(lines[i]) {
      BrokenLines(lines, body, i);
    } else {
      assert !HasLineBreak(lines[0]) && !HasLineBreak(lines[1]) && !HasLineBreak(lines[2]);
      GoodLines(lines, body);
    }
  }

  function FormatLines(lines: seq<string>, body: string): string {
    if lines == [] then CRLF + body else lines[0] + CRLF + FormatLines(lines[1..], body)
  }

  lemma FormatIsLines(to: string, from: string, subject: string, body: string)
    ensures FormatMessage(to, from, subject, body) == FormatLines(HeaderLines(to, from, subject), body)
  {
    var lines := HeaderLines(to, from, subject);
    assert FormatLines(lines[3..], body) == CRLF + body;
    assert FormatLines(lines[2..], body) == lines[2] + CRLF + (CRLF + body) by {
      assert lines[2..][1..] == lines[3..];
    }
    assert FormatLines(lines[1..], body) == lines[1] + CRLF + FormatLines(lines[2..], body) by {
      assert lines[1..][1..] == lines[2..];
    }
  }

  lemma {:induction false} GoodLines(lines: seq<string>, body: string)
    requires forall i :: 0 <= i < |lines| ==> lines[i] != "" && !HasLineBreak(lines[i])
    ensures ParseMessage(FormatLines(lines, body)) == Some(Message(lines, body))
  {
    if lines == [] {
      EmptyLineParses(body);
    } else {
      GoodLines(lines[1..], body);
      ParseHeaderLine(lines[0], FormatLines(lines[1..], body));
      assert lines == [lines[0]] + lines[1..];
    }
  }

  lemma {:induction false} BrokenLines(lines: seq<string>, body: string, broken: nat)
    requires forall i :: 0 <= i < |lines| ==> lines[i] != ""
    requires broken < |lines| && HasLineBreak(lines[broken])
    ensures ParseMessage(FormatLines(lines, body)) != Some(Message(lines, body))
  {
    var rest := FormatLines(lines[1..], body);
    ParseHeaderLine(lines[0], rest);
    if !HasLineBreak(lines[0]) {
      BrokenLines(lines[1..], body, broken - 1);
      PrependDiffers(lines, body, ParseMessage(rest));
    }
  }

  lemma PrependDiffers(lines: seq<string>, body: string, rest: Option<Message>)
    requires lines != [] && rest != Some(Message(lines[1..], body))
    ensures WithHeader(lines[0], rest) != Some(Message(lines, body))
  {
    if rest.Some? {
      assert ([lines[0]] + rest.value.headers)[1..] == rest.value.headers;
    }
  }

  lemma EmptyLineParses(body: string)
    ensures ParseMessage(CRLF + body) == Some(Message([], body))
  {
    assert (CRLF + body)[..2] == CRLF && (CRLF + body)[2..] == body;
  }

  lemma {:induction false} OneLine(s: string)
    requires forall k :: 0 <= k < |s| ==> s[k] != '\r' && s[k] != '\n'
    ensures !HasLineBreak(s)
  {
    if |s| >= 2 {
      assert s[..2][0] != CRLF[0];
      OneLine(s[1..]);
    }
  }

  /** To an address the handler accepted, the message always reads back. */
  lemma AcceptedRecipientRoundTrip(to: string, from: string, subject: string, body: string)
    requires IsValidEmail(to) && !HasLineBreak(from) && !HasLineBreak(subject)
    ensures ParseMessage(FormatMessage(to, from, subject, body)) ==
              Some(Message(HeaderLines(to, from, subject), body))
  {
    forall k | 0 <= k < |to| ensures to[k] != '\r' && to[k] != '\n' {
      ValidEmailIsOneLine(to, k);
    }
    OneLine(to);
    MessageRoundTrip(to, from, subject, body);
  }

  /** The mail of VerifyService::sendVerifyCode. */
  function CodeMail(to: string, from: string, code: string): string {
    FormatMessage(to, from, CodeSubject(), CodeBody(code))
  }

  function CodeSubject(): string { "Verification Code" }

  function CodeBody(code: string): string { "Your verification code is: " + code }

  lemma CodeSubjectIsOneLine()
    ensures !HasLineBreak(CodeSubject())
  {
    OneLine(CodeSubject());
  }

  /** Whoever may be sent a code reads it at the end of the body of a message addressed to them. */
  lemma CodeMailRoundTrip(to: string, from: string, code: string)
    requires IsValidEmail(to) && !HasLineBreak(from)
    ensures ParseMessage(CodeMail(to, from, code)) ==
              Some(Message(["To: " + to, "From: " + from, "Subject: Verification Code"],
                           "Your verification code is: " + code))
  {
    assert "Subject: " + CodeSubject() == "Subject: Verification Code";
    CodeSubjectIsOneLine();
    AcceptedRecipientRoundTrip(to, from, CodeSubject(), CodeBody(code));
  }

  // ---------------------------------------------------------------------------------
  // The verification code
  // ---------------------------------------------------------------------------------

  /** `draw(i)` is the i-th number of the generator, uniform in 0..9. */
  method GenerateVerificationCode(length: int, draw: nat -> nat) returns (code: string)
    requires forall i: nat :: draw(i) < 10
    ensures |code| == if length < 0 then 0 else length
    ensures forall i :: 0 <= i < |code| ==> code[i] == "0123456789"[draw(i)]
  {
    code := "";
    var i := 0;
    while i < length
      invariant i == |code| && (if length < 0 then i == 0 else i <= length)
      invariant forall k :: 0 <= k < i ==> code[k] == "0123456789"[draw(k)]
    {
      Decimal.DigitCharIs(draw(i));
      code := code + Decimal.ToString(draw(i));
      i := i + 1;
    }
  }

  // ---------------------------------------------------------------------------------
  // The upload
  // ---------------------------------------------------------------------------------

  /** The state behind CURLOPT_READDATA: a pointer into the message and what is left. */
  class EmailData {
    const content: string
    var data: nat
    var sizeLeft: nat

    ghost predicate Valid()
      reads this
    {
      data + sizeLeft == |content|
    }

    ghost function Remaining(): string
      requires Valid()
      reads this
    {
      content[data..]
    }

    constructor (content: string)
      ensures Valid() && Remaining() == content
    {
      this.content := content;
      data := 0;
      sizeLeft := |content|;
    }

    /** readCallback: fills the front of `ptr` and returns how many characters it wrote. */
    method ReadCallback(ptr: array<char>, size: nat, nmemb: nat) returns (copied: nat)
      requires Valid() && size * nmemb <= ptr.Length
      modifies this, ptr
      ensures Valid()
      ensures copied == Min(size * nmemb, |old(Remaining())|)
      ensures ptr[..copied] == old(Remaining())[..copied]
      ensures Remaining() == old(Remaining())[copied..]
      ensures forall k :: copied <= k < ptr.Length ==> ptr[k] == old(ptr[k])
    {
      var bufferSize := size * nmemb;
      if sizeLeft == 0 {
        return 0;
      }
      copied := Min(bufferSize, sizeLeft);
      forall k | 0 <= k < copied {
        ptr[k] := content[data + k];
      }
      data := data + copied;
      sizeLeft := sizeLeft - copied;
    }
  }

  /** What a sequence of calls with these buffer capacities hands out, call by call. */
  function Chunks(rest: string, capacities: seq<nat>): seq<string> {
    if capacities == [] then []
    else
      var n := Min(capacities[0], |rest|);
      [rest[..n]] + Chunks(rest[n..], capacities[1..])
  }

  function LeftOver(rest: string, capacities: seq<nat>): string {
    if capacities == [] then rest else LeftOver(rest[Min(capacities[0], |rest|)..], capacities[1..])
  }

  function Joined(chunks: seq<string>): string {
    if chunks == [] then "" else chunks[0] + Joined(chunks[1..])
  }

  method Upload(email: EmailData, capacities: seq<nat>) returns (chunks: seq<string>)
    requires email.Valid()
    modifies email
    ensures email.Valid()
    ensures chunks == Chunks(old(email.Remaining()), capacities)
    ensures email.Remaining() == LeftOver(old(email.Remaining()), capacities)
  {
    chunks := [];
    for i := 0 to |capacities|
      invariant email.Valid()
      invariant chunks + Chunks(email.Remaining(), capacities[i..]) ==
                Chunks(old(email.Remaining()), capacities)
      invariant LeftOver(email.Remaining(), capacities[i..]) ==
                LeftOver(old(email.Remaining()), capacities)
    {
      var buffer := new char[capacities[i]](_ => '\0');
      ghost var rest := email.Remaining();
      assert capacities[i..][0] == capacities[i] && capacities[i..][1..] == capacities[i + 1..];
      var n := email.ReadCallback(buffer, 1, capacities[i]);
      assert Chunks(rest, capacities[i..]) == [rest[..n]] + Chunks(rest[n..], capacities[i + 1..]);
      chunks := chunks + [buffer[..n]];
    }
  }

  /** For every sequence of capacities, chunks then remainder are the message. */
  lemma {:induction false} UploadRoundTrip(message: string, capacities: seq<nat>)
    ensures Joined(Chunks(message, capacities)) + LeftOver(message, capacities) == message
  {
    if capacities != [] {
      var n := Min(capacities[0], |message|);
      UploadRoundTrip(message[n..], capacities[1..]);
      var chunks := Chunks(message, capacities);
      assert chunks[1..] == Chunks(message[n..], capacities[1..]);
      assert message == message[..n] + message[n..];
    }
  }

  /** sendTextEmail: `wire` is what the transfer has read out through the callback, whose
      buffers libcurl sizes; `performed` is whether the transfer succeeded. */
  method SendTextEmail(to: string, from: string, subject: string, body: string,
                       capacities: seq<nat>, performed: bool)
    returns (ok: bool, wire: string)
    ensures ok == performed
    ensures wire <= FormatMessage(to, from, subject, body)
    ensures |wire| == Min(Total(capacities), |FormatMessage(to, from, subject, body)|)
    ensures |wire| == |FormatMessage(to, from, subject, body)|
            && !HasLineBreak(to) && !HasLineBreak(from) && !HasLineBreak(subject)
            ==> ParseMessage(wire) == Some(Message(HeaderLines(to, from, subject), body))
  {
    var content := FormatMessage(to, from, subject, body);
    var email := new EmailData(content);
    var chunks := Upload(email, capacities);
    wire := Joined(chunks);
    WireIsPrefix(content, capacities);
    WireLength(content, capacities);
    WireReadsBack(to, from, subject, body, content);
    ok := performed;
  }

  function Total(capacities: seq<nat>): nat {
    if capacities == [] then 0 else capacities[0] + Total(capacities[1..])
  }

  lemma {:induction false} WireLength(content: string, capacities: seq<nat>)
    ensures |Joined(Chunks(content, capacities))| == Min(Total(capacities), |content|)
  {
    if capacities != [] {
      var n := Min(capacities[0], |content|);
      WireLength(content[n..], capacities[1..]);
      assert Chunks(content, capacities)[1..] == Chunks(content[n..], capacities[1..]);
    }
  }

  lemma WireIsPrefix(content: string, capacities: seq<nat>)
    ensures var wire := Joined(Chunks(content, capacities));
            wire <= content && (|wire| == |content| ==> wire == content)
  {
    UploadRoundTrip(content, capacities);
  }

  lemma WireReadsBack(to: string, from: string, subject: string, body: string, wire: string)
    ensures wire == FormatMessage(to, from, subject, body)
            && !HasLineBreak(to) && !HasLineBreak(from) && !HasLineBreak(subject)
            ==> ParseMessage(wire) == Some(Message(HeaderLines(to, from, subject), body))
  {
    MessageRoundTrip(to, from, subject, body);
  }

  function CallsNeeded(n: nat, c: nat): nat
    requires c > 0
  {
    (n + c - 1) / c
  }

  lemma CallsNeededStep(n: nat, c: nat)
    requires c > 0 && n > 0
    ensures CallsNeeded(n, c) == 1 + CallsNeeded(n - Min(c, n), c)
  {
    if n >= c {
      QuotientStep(n - 1, c);
    } else {
      SmallQuotient(n - 1, c);
      QuotientStep(n - 1, c);
      SmallQuotient(c - 1, c);
    }
  }

  /** A constant capacity c drains n characters in exactly ceil(n/c) calls, all of them
      non-empty; the call after that returns nothing, which ends the upload. */
  lemma {:induction false} ConstantCapacityDrains(message: string, c: nat)
    requires c > 0
    ensures var calls := Repeat(c, CallsNeeded(|message|, c));
            && LeftOver(message, calls) == ""
            && |Chunks(message, calls)| == CallsNeeded(|message|, c)
            && forall k :: 0 <= k < |Chunks(message, calls)| ==> Chunks(message, calls)[k] != ""
    ensures Chunks("", [c]) == [""]
    decreases |message|
  {
    if message == "" {
      SmallQuotient(c - 1, c);
    } else {
      var n := Min(c, |message|);
      CallsNeededStep(|message|, c);
      ConstantCapacityDrains(message[n..], c);
      var calls := Repeat(c, CallsNeeded(|message|, c));
      assert calls[1..] == Repeat(c, CallsNeeded(|message[n..]|, c));
    }
  }
}
