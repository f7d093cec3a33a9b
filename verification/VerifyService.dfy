/** The verification-code store of src/server/VerifyService.{h,cpp}. */
module VerifyService {
  import opened EmailAddress
  import opened Wrappers
  import EmailUtil

  datatype VerifyInfo = VerifyInfo(code: string, expireTime: int, action: string)
  type Codes = map<string, VerifyInfo>

  function Stored(codes: Codes, email: string, action: string, code: string, now: int, expiry: int): Codes {
    codes[email := VerifyInfo(code, now + expiry, action)]
  }

  predicate Accepts(codes: Codes, email: string, action: string, code: string, now: int) {
    email in codes &&
    !(codes[email].expireTime < now || codes[email].action != action || codes[email].code != code)
  }

  /** The entries not expired at `now`. */
  function Swept(codes: Codes, now: int): Codes {
    map email | email in codes && !(codes[email].expireTime < now) :: codes[email]
  }

  /** The sender's address, the buffers the mail library offers, and whether it succeeds. */
  datatype Transfer = Transfer(from: string, capacities: seq<nat>, performed: bool)

  lemma CodeOnTheWire(email: string, from: string, code: string, wire: string)
    requires wire <= EmailUtil.CodeMail(email, from, code)
    ensures IsValidEmail(email) && !EmailUtil.HasLineBreak(from) &&
            |wire| == |EmailUtil.CodeMail(email, from, code)| ==>
              EmailUtil.ParseMessage(wire) ==
              Some(EmailUtil.Message(["To: " + email, "From: " + from, "Subject: Verification Code"],
                                     "Your verification code is: " + code))
  {
    if IsValidEmail(email) && !EmailUtil.HasLineBreak(from) {
      EmailUtil.CodeMailRoundTrip(email, from, code);
    }
    WholePrefix(wire, EmailUtil.CodeMail(email, from, code));
  }

  lemma WholePrefix(part: string, whole: string)
    requires part <= whole
    ensures |part| == |whole| ==> part == whole
  {
  }

  class VerifyService {
    var codes: Codes

    constructor ()
      ensures codes == map[]
    {
      codes := map[];
    }

    /** The code stored is the one drawn and the one the recipient reads at the end of the
        mail; the clock is read under the lock. */
    method SendVerifyCode(email: string, action: string, draw: nat -> nat, mail: Transfer, now: int, expiry: int)
      returns (success: bool, code: string, wire: string)
      requires forall i: nat :: draw(i) < 10
      modifies this
      ensures success == mail.performed
      ensures |code| == 6 && forall i :: 0 <= i < 6 ==> code[i] == "0123456789"[draw(i)]
      ensures codes == if success then old(codes)[email := VerifyInfo(code, now + expiry, action)] else old(codes)
      ensures IsValidEmail(email) && !EmailUtil.HasLineBreak(mail.from) &&
              |wire| == |EmailUtil.CodeMail(email, mail.from, code)| ==>
                EmailUtil.ParseMessage(wire) ==
                Some(EmailUtil.Message(["To: " + email, "From: " + mail.from, "Subject: Verification Code"],
                                       "Your verification code is: " + code))
    {
      code := EmailUtil.GenerateVerificationCode(6, draw);
      success, wire := EmailUtil.SendTextEmail(email, mail.from, EmailUtil.CodeSubject(), EmailUtil.CodeBody(code),
                                               mail.capacities, mail.performed);
      CodeOnTheWire(email, mail.from, code, wire);
      if !success {
        return;
      }
      codes := codes[email := VerifyInfo(code, now + expiry, action)];
    }

    /** Look-up and tests as one atomic step. */
    method VerifyCode(email: string, action: string, code: string, now: int) returns (ok: bool)
      ensures ok == Accepts(codes, email, action, code, now)
    {
      if email !in codes {
        return false;
      }
      var info := codes[email];
      ok := !(info.expireTime < now || info.action != action || info.code != code);
    }

    /** Erase while iterating: `rest` holds the keys the iterator has not reached yet. */
    method CleanupExpiredCodes(now: int) returns (count: nat)
      modifies this
      ensures codes == Swept(old(codes), now)
      ensures count == |old(codes)| - |codes|
    {
      count := 0;
      ghost var before := codes;
      var rest := codes.Keys;
      while rest != {}
        invariant rest <= codes.Keys
        invariant codes == map email | email in before && (email in rest || !(before[email].expireTime < now))
                             :: before[email]
        invariant count == |before| - |codes|
        decreases rest
      {
        var email :| email in rest;
        rest := rest - {email};
        if codes[email].expireTime < now {
          ghost var was := codes;
          codes := codes - {email};
          assert was.Keys == codes.Keys + {email};
          count := count + 1;
        }
      }
    }
  }

  /** The code that was mailed, and no other, is accepted for its action until the expiry. */
  method SendThenVerify(service: VerifyService, email: string, action: string, draw: nat -> nat, mail: Transfer,
                        now: int, expiry: int, typed: string, purpose: string, later: int)
    returns (code: string, ok: bool)
    requires forall i: nat :: draw(i) < 10
    requires mail.performed
    modifies service
    ensures |code| == 6 && forall i :: 0 <= i < 6 ==> code[i] == "0123456789"[draw(i)]
    ensures ok <==> typed == code && purpose == action && later <= now + expiry
  {
    var success, wire;
    success, code, wire := service.SendVerifyCode(email, action, draw, mail, now, expiry);
    ok := service.VerifyCode(email, purpose, typed, later);
  }

  // ---------------------------------------------------------------------------------
  // Whole runs, against a log of what was sent
  // ---------------------------------------------------------------------------------

  /** What happened to the store, in the order of the lock. `at` is the time of the step;
      a sweep read its clock at `reading`, before it had the lock. A restart of the server
      forgets every code. */
  datatype Event =
    | Send(at: int, email: string, action: string, code: string, delivered: bool)
    | Verify(at: int, email: string, action: string, code: string)
    | Sweep(at: int, reading: int)
    | Restart(at: int)

  ghost predicate Monotone(run: seq<Event>) {
    && (forall i, j :: 0 <= i < j < |run| ==> run[i].at <= run[j].at)
    && (forall i :: 0 <= i < |run| && run[i].Sweep? ==> run[i].reading <= run[i].at)
  }

  function Step(codes: Codes, e: Event, expiry: int): Codes {
    match e
    case Send(at, email, action, code, delivered) =>
      if delivered then Stored(codes, email, action, code, at, expiry) else codes
    case Verify(_, _, _, _) => codes
    case Sweep(_, reading) => Swept(codes, reading)
    case Restart(_) => map[]
  }

  function CodesAfter(run: seq<Event>, expiry: int): Codes {
    if run == [] then map[]
    else Step(CodesAfter(run[..|run| - 1], expiry), run[|run| - 1], expiry)
  }

  /** The last successful send to `email` since the server started. */
  function LastSend(run: seq<Event>, email: string): Option<Event> {
    if run == [] then None
    else
      var e := run[|run| - 1];
      if e.Restart? then None
      else if e.Send? && e.delivered && e.email == email then Some(e)
      else LastSend(run[..|run| - 1], email)
  }

  /** What the log says a verification at `t` must answer. */
  predicate LogAccepts(run: seq<Event>, expiry: int, email: string, action: string, code: string, t: int) {
    match LastSend(run, email)
    case None => false
    case Some(e) => e.Send? && e.action == action && e.code == code && t <= e.at + expiry
  }

  ghost predicate NotBefore(run: seq<Event>, t: int) {
    forall i :: 0 <= i < |run| ==> run[i].at <= t
  }

  /** The store and the log at one address: an entry is the last send; a missing entry
      means that there was none or that it has expired. */
  ghost predicate Agrees(run: seq<Event>, expiry: int, email: string, t: int) {
    var codes := CodesAfter(run, expiry);
    match LastSend(run, email)
    case None => email !in codes
    case Some(e) =>
      && e.Send?
      && (email in codes ==> codes[email] == VerifyInfo(e.code, e.at + expiry, e.action))
      && (email !in codes ==> e.at + expiry < t)
  }

  lemma {:induction false} StoreAgreesWithLog(run: seq<Event>, expiry: int, email: string, t: int)
    requires Monotone(run) && NotBefore(run, t)
    ensures Agrees(run, expiry, email, t)
  {
    if run != [] {
      var front, e := run[..|run| - 1], run[|run| - 1];
      StoreAgreesWithLog(front, expiry, email, e.at);
    }
  }

  /** Refinement: after any run of sends, verifications and sweeps, and whatever the
      expiry, a verification is answered as the log of successful sends says. */
  lemma {:induction false} StoreRefinesLog(run: seq<Event>, expiry: int, email: string, action: string,
                                           code: string, t: int)
    requires Monotone(run) && NotBefore(run, t)
    ensures Accepts(CodesAfter(run, expiry), email, action, code, t)
            <==> LogAccepts(run, expiry, email, action, code, t)
  {
    StoreAgreesWithLog(run, expiry, email, t);
  }

  // ---------------------------------------------------------------------------------
  // The sweep cannot be observed
  // ---------------------------------------------------------------------------------

  /** The answers of the verifications of a run, in order. */
  function Answers(run: seq<Event>, expiry: int): seq<bool> {
    if run == [] then []
    else
      var front, e := run[..|run| - 1], run[|run| - 1];
      if e.Verify? then Answers(front, expiry) + [Accepts(CodesAfter(front, expiry), e.email, e.action, e.code, e.at)]
      else Answers(front, expiry)
  }

  function WithoutSweeps(run: seq<Event>): seq<Event> {
    if run == [] then []
    else
      var front, e := run[..|run| - 1], run[|run| - 1];
      if e.Sweep? then WithoutSweeps(front) else WithoutSweeps(front) + [e]
  }

  lemma {:induction false} SweepsLeaveNoTrace(run: seq<Event>, expiry: int, email: string)
    ensures LastSend(WithoutSweeps(run), email) == LastSend(run, email)
    ensures forall i :: 0 <= i < |WithoutSweeps(run)| ==> WithoutSweeps(run)[i] in run && !WithoutSweeps(run)[i].Sweep?
  {
    if run != [] {
      var front, e := run[..|run| - 1], run[|run| - 1];
      SweepsLeaveNoTrace(front, expiry, email);
      if !e.Sweep? {
        assert WithoutSweeps(run)[..|WithoutSweeps(run)| - 1] == WithoutSweeps(front);
      }
    }
  }

  lemma MonotoneAppend(run: seq<Event>, e: Event)
    requires Monotone(run) && NotBefore(run, e.at) && !e.Sweep?
    ensures Monotone(run + [e])
  {
  }

  lemma {:induction false} WithoutSweepsMonotone(run: seq<Event>, t: int)
    requires Monotone(run) && NotBefore(run, t)
    ensures Monotone(WithoutSweeps(run)) && NotBefore(WithoutSweeps(run), t)
  {
    if run != [] {
      var front, e := run[..|run| - 1], run[|run| - 1];
      WithoutSweepsMonotone(front, e.at);
      if !e.Sweep? {
        MonotoneAppend(WithoutSweeps(front), e);
      }
    }
  }

  lemma {:induction false} AnswersWithoutSweeps(run: seq<Event>, expiry: int)
    requires Monotone(run)
    ensures Answers(run, expiry) == Answers(WithoutSweeps(run), expiry)
  {
    if run != [] {
      var front, e := run[..|run| - 1], run[|run| - 1];
      AnswersWithoutSweeps(front, expiry);
      if !e.Sweep? {
        var plain := WithoutSweeps(front);
        assert WithoutSweeps(run)[..|WithoutSweeps(run)| - 1] == plain;
        if e.Verify? {
          WithoutSweepsMonotone(front, e.at);
          SweepsLeaveNoTrace(front, expiry, e.email);
          StoreRefinesLog(front, expiry, e.email, e.action, e.code, e.at);
          StoreRefinesLog(plain, expiry, e.email, e.action, e.code, e.at);
        }
      }
    }
  }

  /** Inserting, deleting or moving sweeps anywhere in a run changes no answer. */
  lemma SweepIsInvisible(run: seq<Event>, other: seq<Event>, expiry: int)
    requires Monotone(run) && Monotone(other)
    requires WithoutSweeps(run) == WithoutSweeps(other)
    ensures Answers(run, expiry) == Answers(other, expiry)
  {
    AnswersWithoutSweeps(run, expiry);
    AnswersWithoutSweeps(other, expiry);
  }

  /** A sweep that read its clock early keeps every code stored since that reading. */
  lemma SweepKeepsNewCodes(codes: Codes, email: string, action: string, code: string,
                           t: int, expiry: int, reading: int)
    requires expiry >= 0 && reading <= t
    ensures var stored := Stored(codes, email, action, code, t, expiry);
            email in Swept(stored, reading) && Swept(stored, reading)[email] == stored[email]
  {
  }

  // ---------------------------------------------------------------------------------
  // Retention
  // ---------------------------------------------------------------------------------

  /** The addresses successfully sent to at or after `since`. */
  function SentTo(run: seq<Event>, since: int): set<string> {
    set i | 0 <= i < |run| && run[i].Send? && run[i].delivered && run[i].at >= since :: run[i].email
  }

  lemma {:induction false} EntryComesFromSend(run: seq<Event>, expiry: int, email: string)
    requires email in CodesAfter(run, expiry)
    ensures exists i :: 0 <= i < |run| && run[i].Send? && run[i].delivered && run[i].email == email
                        && CodesAfter(run, expiry)[email] == VerifyInfo(run[i].code, run[i].at + expiry, run[i].action)
  {
    var front, e := run[..|run| - 1], run[|run| - 1];
    if !(e.Send? && e.delivered && e.email == email) {
      EntryComesFromSend(front, expiry, email);
      var i :| 0 <= i < |front| && front[i].Send? && front[i].delivered && front[i].email == email
               && CodesAfter(front, expiry)[email] == VerifyInfo(front[i].code, front[i].at + expiry, front[i].action);
      assert run[i] == front[i];
    }
  }

  lemma {:induction false} NothingOlderSurvives(run: seq<Event>, expiry: int, sweep: nat, email: string)
    requires Monotone(run) && expiry >= 0
    requires sweep < |run| && run[sweep].Sweep?
    requires email in CodesAfter(run, expiry)
    ensures CodesAfter(run, expiry)[email].expireTime >= run[sweep].reading
  {
    var front, e := run[..|run| - 1], run[|run| - 1];
    if sweep < |run| - 1 && !(e.Send? && e.delivered && e.email == email) {
      NothingOlderSurvives(front, expiry, sweep, email);
    }
  }

  /** After a sweep whose clock read T, every stored code was sent at or after T minus the
      expiry, so the store is never larger than the number of addresses sent to since. */
  lemma RetentionBound(run: seq<Event>, expiry: int, sweep: nat)
    requires Monotone(run) && expiry >= 0
    requires sweep < |run| && run[sweep].Sweep?
    ensures CodesAfter(run, expiry).Keys <= SentTo(run, run[sweep].reading - expiry)
    ensures |CodesAfter(run, expiry)| <= |SentTo(run, run[sweep].reading - expiry)|
  {
    var codes, recent := CodesAfter(run, expiry), SentTo(run, run[sweep].reading - expiry);
    forall email | email in codes ensures email in recent {
      NothingOlderSurvives(run, expiry, sweep, email);
      EntryComesFromSend(run, expiry, email);
    }
    SubsetCardinality(codes.Keys, recent);
  }

  lemma {:induction false} SubsetCardinality(a: set<string>, b: set<string>)
    requires a <= b
    ensures |a| <= |b|
  {
    if x :| x in a {
      SubsetCardinality(a - {x}, b - {x});
    }
  }
}
