/**
 Whole runs of the account server. Every handler runs statement by statement, interleaved
 with other requests, with mail, with sweeps, with every other SQL statement and with
 restarts, which keep the tables but lose the codes and the requests under way. The clock
 of the server never steps back.
 */
module Accounts {
  import opened Database
  import opened EmailAddress
  import opened JWTUtil
  import opened PasswordUtil
  import opened Schema
  import opened UserDAO
  import opened UserHandler
  import opened Wrappers
  import Codes = VerifyService

  /** The proof of address behind a request: what was verified, when, and how much of the
      mail log existed then. */
  datatype Licence = Licence(email: string, action: string, code: string, at: int, seen: nat)

  /** The token a request was authorised by, and the clock readings of its checks. */
  datatype Pass = Pass(token: Token, t1: int, t2: int)

  /** A request between two of its statements. */
  datatype Pending =
    | Verified(username: string, password: string, licence: Licence)         // before the name look-up
    | NameFree(username: string, password: string, licence: Licence)         // before the insert
    | MayChange(id: int, password: string, licence: Licence, pass: Pass)     // before the update

  /** What the handlers did to the user table, in order. */
  datatype Effect =
    | Born(id: int, username: string, password: string, licence: Licence)
    | Changed(id: int, password: string, licence: Licence, pass: Pass)
    | Renamed(id: int, username: string, email: string)  // by updateUser, which no handler calls

  datatype World = World(now: int, codes: Codes.Codes, log: seq<Codes.Event>, db: Store,
                         pending: map<nat, Pending>, trace: seq<Effect>)

  datatype Input =
    | GetCode(at: int, body: Body, code: string, delivered: bool)
    | Sweep(at: int, reading: int)
    | RegisterVerify(at: int, r: nat, username: string, password: string, email: string, code: string)
    | RegisterLookup(r: nat, net: Net)
    | RegisterCreate(r: nat, skip: nat, net: Net)
    | ChangeVerify(at: int, r: nat, pass: Pass, password: string, email: string, code: string)
    | ChangeWrite(r: nat, net: Net)
    | Restart(at: int)
    | Other(q: Statement)

  /** Deployment parameters. */
  datatype Config = Config(expiry: int, digest: string -> Digest, signer: Signer)

  function Start(now: int): World { World(now, map[], [], EMPTY, map[], []) }

  /** The token is accepted and names account `id`. */
  predicate Authorises(c: Config, pass: Pass, id: int) {
    TokenAccepted(c.signer, Some(pass.token), pass.t1, pass.t2) && AccountOf(pass.token) == Some(id)
  }

  predicate Enabled(c: Config, w: World, i: Input) {
    match i
    case GetCode(at, _, _, _) => w.now <= at
    case Sweep(at, reading) => w.now <= at && reading <= at
    case RegisterVerify(at, r, _, _, _, _) => w.now <= at && r !in w.pending
    case RegisterLookup(r, _) => r in w.pending && w.pending[r].Verified?
    case RegisterCreate(r, _, _) => r in w.pending && w.pending[r].NameFree?
    case ChangeVerify(at, r, pass, _, _, _) =>
      && w.now <= at && r !in w.pending
      && TokenAccepted(c.signer, Some(pass.token), pass.t1, pass.t2) && AccountOf(pass.token).Some?
    case ChangeWrite(r, _) => r in w.pending && w.pending[r].MayChange?
    case Restart(at) => w.now <= at
    case Other(q) => !q.InsertUser? && !q.SetPassword?
  }

  function Logged(c: Config, w: World, e: Codes.Event): World {
    w.(now := e.at, log := w.log + [e], codes := Codes.Step(w.codes, e, c.expiry))
  }

  function Checked(c: Config, w: World, at: int, r: nat, email: string, action: string, code: string,
                   next: Licence -> Pending): World {
    var w' := Logged(c, w, Codes.Verify(at, email, action, code));
    if Codes.Accepts(w.codes, email, action, code, at) then
      w'.(pending := w.pending[r := next(Licence(email, action, code, at, |w.log|))])
    else w'
  }

  function Apply(c: Config, w: World, i: Input): World
    requires Enabled(c, w, i)
  {
    match i
    case GetCode(at, body, code, delivered) =>
      if MaySend(body) then Logged(c, w, Codes.Send(at, body["email"], body["action"], code, delivered))
      else w.(now := at)
    case Sweep(at, reading) => Logged(c, w, Codes.Sweep(at, reading))
    case RegisterVerify(at, r, username, password, email, code) =>
      Checked(c, w, at, r, email, "register", code, licence => Verified(username, password, licence))
    case RegisterLookup(r, net) => LookedUp(w, r, net)
    case RegisterCreate(r, skip, net) => Create(c, w, r, skip, net)
    case ChangeVerify(at, r, pass, password, email, code) =>
      Checked(c, w, at, r, email, "reset_password", code,
              licence => MayChange(AccountOf(pass.token).value, password, licence, pass))
    case ChangeWrite(r, net) => Change(c, w, r, net)
    case Restart(at) => Logged(c, w, Codes.Restart(at)).(pending := map[])
    case Other(q) => Executed(w, q)
  }

  function LookedUp(w: World, r: nat, net: Net): World
    requires r in w.pending && w.pending[r].Verified?
  {
    var p := w.pending[r];
    if net.connected && net.first && NameTaken(w.db, p.username, 0) then w.(pending := w.pending - {r})
    else w.(pending := w.pending[r := NameFree(p.username, p.password, p.licence)])
  }

  function Create(c: Config, w: World, r: nat, skip: nat, net: Net): World
    requires r in w.pending && w.pending[r].NameFree?
  {
    var p, rest := w.pending[r], w.pending - {r};
    if !net.connected || !net.first then w.(pending := rest)
    else
      match Exec(w.db, InsertUser(p.username, HashPassword(c.digest, p.password), p.licence.email, skip))
      case SqlError => w.(pending := rest)
      case Done(t, _, id) =>
        w.(pending := rest, db := t, trace := w.trace + [Born(id, p.username, p.password, p.licence)])
  }

  function Change(c: Config, w: World, r: nat, net: Net): World
    requires r in w.pending && w.pending[r].MayChange?
  {
    var p, rest := w.pending[r], w.pending - {r};
    if !net.connected || !net.first then w.(pending := rest)
    else
      var t := After(w.db, SetPassword(p.id, HashPassword(c.digest, p.password)));
      w.(pending := rest, db := t,
         trace := if p.id in w.db.users then w.trace + [Changed(p.id, p.password, p.licence, p.pass)] else w.trace)
  }

  function Executed(w: World, q: Statement): World {
    w.(db := After(w.db, q),
       trace := if q.UpdateUser? && q.id in w.db.users && Exec(w.db, q).Done?
                then w.trace + [Renamed(q.id, q.username, q.email)] else w.trace)
  }

  ghost predicate ValidRun(c: Config, w: World, inputs: seq<Input>)
    decreases inputs
  {
    inputs == [] || (Enabled(c, w, inputs[0]) && ValidRun(c, Apply(c, w, inputs[0]), inputs[1..]))
  }

  ghost function AfterRun(c: Config, w: World, inputs: seq<Input>): World
    requires ValidRun(c, w, inputs)
    decreases inputs
  {
    if inputs == [] then w else AfterRun(c, Apply(c, w, inputs[0]), inputs[1..])
  }

  // ---------------------------------------------------------------------------------
  // Invariants
  // ---------------------------------------------------------------------------------

  /** At its verification the latest successful mail to the address carried this code for
      this action, was no older than the expiry, and went to a well-formed address. */
  ghost predicate Licensed(c: Config, log: seq<Codes.Event>, l: Licence) {
    && l.seen <= |log|
    && Codes.LogAccepts(log[..l.seen], c.expiry, l.email, l.action, l.code, l.at)
    && IsValidEmail(l.email)
  }

  ghost predicate MailInv(c: Config, now: int, codes: Codes.Codes, log: seq<Codes.Event>) {
    && Codes.Monotone(log) && Codes.NotBefore(log, now)
    && codes == Codes.CodesAfter(log, c.expiry)
    && (forall k :: 0 <= k < |log| && log[k].Send? ==> IsValidEmail(log[k].email))
  }

  function ActionOf(p: Pending): string { if p.MayChange? then "reset_password" else "register" }

  function ActionBehind(e: Effect): string { if e.Changed? then "reset_password" else "register" }

  ghost predicate PendingInv(c: Config, log: seq<Codes.Event>, pending: map<nat, Pending>) {
    forall r :: r in pending ==>
      && Licensed(c, log, pending[r].licence) && pending[r].licence.action == ActionOf(pending[r])
      && (pending[r].MayChange? ==> Authorises(c, pending[r].pass, pending[r].id))
  }

  ghost predicate TraceInv(c: Config, log: seq<Codes.Event>, trace: seq<Effect>) {
    forall k :: 0 <= k < |trace| && !trace[k].Renamed? ==>
      && Licensed(c, log, trace[k].licence) && trace[k].licence.action == ActionBehind(trace[k])
      && (trace[k].Changed? ==> Authorises(c, trace[k].pass, trace[k].id))
  }

  predicate IsBirth(trace: seq<Effect>, k: int, id: int) {
    0 <= k < |trace| && trace[k].Born? && trace[k].id == id
  }

  /** Accounts are born once each, in the order of their ids, and none exists unborn. */
  ghost predicate BirthInv(trace: seq<Effect>, db: Store) {
    && (forall k :: 0 <= k < |trace| && trace[k].Born? ==> trace[k].id < db.nextUser)
    && (forall j, k :: 0 <= j < k < |trace| && trace[j].Born? && trace[k].Born? ==> trace[j].id < trace[k].id)
    && (forall id :: id in db.users ==> exists k :: IsBirth(trace, k, id))
  }

  /** The password last given for an account, at registration or by a change. */
  function LastPassword(trace: seq<Effect>, id: int): Option<string> {
    if trace == [] then None
    else
      var last := trace[|trace| - 1];
      if last.id == id && !last.Renamed? then Some(last.password) else LastPassword(trace[..|trace| - 1], id)
  }

  /** The user name and address last given for an account. */
  function LastIdentity(trace: seq<Effect>, id: int): Option<(string, string)> {
    if trace == [] then None
    else
      var last := trace[|trace| - 1];
      if last.id == id && last.Born? then Some((last.username, last.licence.email))
      else if last.id == id && last.Renamed? then Some((last.username, last.email))
      else LastIdentity(trace[..|trace| - 1], id)
  }

  ghost predicate IdentityInv(trace: seq<Effect>, db: Store) {
    forall id :: id in db.users ==>
      LastIdentity(trace, id) == Some((db.users[id].username, db.users[id].email))
  }

  ghost predicate PasswordInv(c: Config, trace: seq<Effect>, db: Store) {
    forall id :: id in db.users ==>
      LastPassword(trace, id).Some? &&
      db.users[id].passwdHash == HashPassword(c.digest, LastPassword(trace, id).value)
  }

  /** Only an account there was, with its name and address, had its password changed. */
  ghost predicate ChangeInv(trace: seq<Effect>) {
    forall k :: 0 <= k < |trace| && trace[k].Changed? ==> LastIdentity(trace[..k], trace[k].id).Some?
  }

  /** What the user table and the trace say of each other. */
  ghost predicate AccountInv(c: Config, trace: seq<Effect>, db: Store) {
    BirthInv(trace, db) && PasswordInv(c, trace, db) && IdentityInv(trace, db) && ChangeInv(trace)
  }

  ghost predicate Inv(c: Config, w: World) {
    && StoreInv(w.db)
    && MailInv(c, w.now, w.codes, w.log)
    && PendingInv(c, w.log, w.pending) && TraceInv(c, w.log, w.trace)
    && AccountInv(c, w.trace, w.db)
  }

  lemma StartInv(c: Config, now: int)
    ensures Inv(c, Start(now))
  {
  }

  // Mail and verification.

  lemma LogGrows(c: Config, log: seq<Codes.Event>, e: Codes.Event, l: Licence)
    requires Licensed(c, log, l)
    ensures Licensed(c, log + [e], l)
  {
    assert (log + [e])[..l.seen] == log[..l.seen];
  }

  lemma LoggedKeepsInv(c: Config, w: World, e: Codes.Event)
    requires Inv(c, w) && w.now <= e.at
    requires e.Sweep? ==> e.reading <= e.at
    requires e.Send? ==> IsValidEmail(e.email)
    ensures Inv(c, Logged(c, w, e))
  {
    MailGrows(c, w.now, w.codes, w.log, e);
    PendingGrows(c, w.log, w.pending, e);
    TraceLogGrows(c, w.log, w.trace, e);
  }

  lemma MailGrows(c: Config, now: int, codes: Codes.Codes, log: seq<Codes.Event>, e: Codes.Event)
    requires MailInv(c, now, codes, log) && now <= e.at
    requires e.Sweep? ==> e.reading <= e.at
    requires e.Send? ==> IsValidEmail(e.email)
    ensures MailInv(c, e.at, Codes.Step(codes, e, c.expiry), log + [e])
  {
    var longer := log + [e];
    assert longer[..|longer| - 1] == log && longer[|longer| - 1] == e;
    assert Codes.CodesAfter(longer, c.expiry) == Codes.Step(codes, e, c.expiry);
    StillMonotone(log, now, e);
  }

  lemma StillMonotone(log: seq<Codes.Event>, now: int, e: Codes.Event)
    requires Codes.Monotone(log) && Codes.NotBefore(log, now) && now <= e.at
    requires e.Sweep? ==> e.reading <= e.at
    ensures Codes.Monotone(log + [e]) && Codes.NotBefore(log + [e], e.at)
  {
  }

  lemma PendingGrows(c: Config, log: seq<Codes.Event>, pending: map<nat, Pending>, e: Codes.Event)
    requires PendingInv(c, log, pending)
    ensures PendingInv(c, log + [e], pending)
  {
    forall r | r in pending ensures Licensed(c, log + [e], pending[r].licence) {
      LogGrows(c, log, e, pending[r].licence);
    }
  }

  lemma TraceLogGrows(c: Config, log: seq<Codes.Event>, trace: seq<Effect>, e: Codes.Event)
    requires TraceInv(c, log, trace)
    ensures TraceInv(c, log + [e], trace)
  {
    forall k | 0 <= k < |trace| && !trace[k].Renamed? ensures Licensed(c, log + [e], trace[k].licence) {
      LogGrows(c, log, e, trace[k].licence);
    }
  }

  /** The last send the log knows of is one of its events. */
  lemma {:induction false} LastSendIsLogged(log: seq<Codes.Event>, email: string)
    ensures var e := Codes.LastSend(log, email);
            e.Some? ==> e.value in log && e.value.Send? && e.value.delivered && e.value.email == email
  {
    if log != [] {
      LastSendIsLogged(log[..|log| - 1], email);
    }
  }

  /** A code the store accepts is a licence. */
  lemma AcceptedIsLicensed(c: Config, w: World, email: string, action: string, code: string, at: int)
    requires MailInv(c, w.now, w.codes, w.log) && w.now <= at
    requires Codes.Accepts(w.codes, email, action, code, at)
    ensures Licensed(c, w.log, Licence(email, action, code, at, |w.log|))
  {
    assert w.log[..|w.log|] == w.log;
    Codes.StoreRefinesLog(w.log, c.expiry, email, action, code, at);
    LastSendIsLogged(w.log, email);
  }

  lemma CheckedKeepsInv(c: Config, w: World, at: int, r: nat, email: string, action: string, code: string,
                        next: Licence -> Pending)
    requires Inv(c, w) && w.now <= at && r !in w.pending
    requires forall l :: next(l).licence == l && ActionOf(next(l)) == action
    requires forall l :: next(l).MayChange? ==> Authorises(c, next(l).pass, next(l).id)
    ensures Inv(c, Checked(c, w, at, r, email, action, code, next))
  {
    var e := Codes.Verify(at, email, action, code);
    LoggedKeepsInv(c, w, e);
    if Codes.Accepts(w.codes, email, action, code, at) {
      var l := Licence(email, action, code, at, |w.log|);
      AcceptedIsLicensed(c, w, email, action, code, at);
      LogGrows(c, w.log, e, l);
      OneMorePending(c, w.log + [e], w.pending, r, next(l));
    }
  }

  lemma OneMorePending(c: Config, log: seq<Codes.Event>, pending: map<nat, Pending>, r: nat, p: Pending)
    requires PendingInv(c, log, pending)
    requires Licensed(c, log, p.licence) && p.licence.action == ActionOf(p)
    requires p.MayChange? ==> Authorises(c, p.pass, p.id)
    ensures PendingInv(c, log, pending[r := p])
  {
  }

  // The inserts and updates of the user table.

  lemma BirthOfInsert(trace: seq<Effect>, s: Store, q: Statement, e: Effect)
    requires StoreInv(s) && BirthInv(trace, s)
    requires q.InsertUser? && Exec(s, q).Done? && e.Born? && e.id == Exec(s, q).lastId
    ensures BirthInv(trace + [e], After(s, q))
  {
    var longer, t := trace + [e], After(s, q);
    assert IsBirth(longer, |trace|, e.id);
    forall id | id in t.users ensures exists k :: IsBirth(longer, k, id) {
      if id in s.users {
        var k :| IsBirth(trace, k, id);
        assert IsBirth(longer, k, id);
      }
    }
  }

  lemma BirthKept(trace: seq<Effect>, longer: seq<Effect>, s: Store, t: Store)
    requires BirthInv(trace, s) && s.nextUser <= t.nextUser && t.users.Keys <= s.users.Keys
    requires longer == trace || (|longer| == |trace| + 1 && longer[..|trace|] == trace && !longer[|trace|].Born?)
    ensures BirthInv(longer, t)
  {
    forall k | 0 <= k < |trace| ensures longer[k] == trace[k] {
      if longer != trace {
        assert longer[..|trace|][k] == longer[k];
      }
    }
    forall id | id in t.users ensures exists k :: IsBirth(longer, k, id) {
      var k :| IsBirth(trace, k, id);
      assert IsBirth(longer, k, id);
    }
  }

  lemma IdentityOfInsert(trace: seq<Effect>, s: Store, q: Statement, e: Effect)
    requires IdentityInv(trace, s)
    requires q.InsertUser? && Exec(s, q).Done? && e.Born? && e.id == Exec(s, q).lastId
    requires q.username == e.username && q.email == e.licence.email
    ensures IdentityInv(trace + [e], After(s, q))
  {
    assert (trace + [e])[..|trace|] == trace;
  }

  lemma PasswordOfInsert(c: Config, trace: seq<Effect>, s: Store, q: Statement, e: Effect)
    requires PasswordInv(c, trace, s)
    requires q.InsertUser? && Exec(s, q).Done? && e.Born? && e.id == Exec(s, q).lastId
    requires q.hash == HashPassword(c.digest, e.password)
    ensures PasswordInv(c, trace + [e], After(s, q))
  {
    assert (trace + [e])[..|trace|] == trace;
  }

  lemma PasswordOfChange(c: Config, trace: seq<Effect>, s: Store, e: Effect)
    requires PasswordInv(c, trace, s) && e.Changed? && e.id in s.users
    ensures PasswordInv(c, trace + [e], After(s, SetPassword(e.id, HashPassword(c.digest, e.password))))
  {
    assert (trace + [e])[..|trace|] == trace;
    VerifyIsDigestEquality(c.digest, e.password, e.password);
  }

  lemma IdentityOfChange(c: Config, trace: seq<Effect>, s: Store, e: Effect)
    requires IdentityInv(trace, s) && e.Changed? && e.id in s.users
    ensures IdentityInv(trace + [e], After(s, SetPassword(e.id, HashPassword(c.digest, e.password))))
  {
    assert (trace + [e])[..|trace|] == trace;
  }

  lemma AppendRename(c: Config, trace: seq<Effect>, s: Store, q: Statement)
    requires IdentityInv(trace, s) && PasswordInv(c, trace, s)
    requires q.UpdateUser? && q.id in s.users && Exec(s, q).Done?
    ensures var longer := trace + [Renamed(q.id, q.username, q.email)];
            IdentityInv(longer, After(s, q)) && PasswordInv(c, longer, After(s, q))
  {
    assert (trace + [Renamed(q.id, q.username, q.email)])[..|trace|] == trace;
  }

  lemma IdentityUntouched(s: Store, q: Statement, id: int)
    requires !q.InsertUser? && !q.UpdateUser? && id in After(s, q).users
    ensures id in s.users && After(s, q).users[id].username == s.users[id].username
    ensures After(s, q).users[id].email == s.users[id].email
  {
  }

  lemma RequestDone(c: Config, log: seq<Codes.Event>, pending: map<nat, Pending>, trace: seq<Effect>, r: nat, e: Effect)
    requires PendingInv(c, log, pending) && TraceInv(c, log, trace)
    requires r in pending && !e.Renamed? && e.licence == pending[r].licence && ActionBehind(e) == ActionOf(pending[r])
    requires e.Changed? ==> Authorises(c, e.pass, e.id)
    ensures PendingInv(c, log, pending - {r}) && TraceInv(c, log, trace + [e])
  {
  }

  lemma ChangesKept(trace: seq<Effect>, e: Effect)
    requires ChangeInv(trace) && (e.Changed? ==> LastIdentity(trace, e.id).Some?)
    ensures ChangeInv(trace + [e])
  {
    forall k | 0 <= k <= |trace| ensures (trace + [e])[..k] == trace[..k] {
    }
    assert trace[..|trace|] == trace;
  }

  lemma InsertKeepsAccounts(c: Config, trace: seq<Effect>, s: Store, q: Statement, e: Effect)
    requires StoreInv(s) && AccountInv(c, trace, s)
    requires q.InsertUser? && Exec(s, q).Done? && e.Born? && e.id == Exec(s, q).lastId
    requires q == InsertUser(e.username, HashPassword(c.digest, e.password), e.licence.email, q.skip)
    ensures AccountInv(c, trace + [e], After(s, q))
  {
    BirthOfInsert(trace, s, q, e);
    PasswordOfInsert(c, trace, s, q, e);
    IdentityOfInsert(trace, s, q, e);
    ChangesKept(trace, e);
  }

  lemma ChangeKeepsAccounts(c: Config, trace: seq<Effect>, s: Store, e: Effect)
    requires AccountInv(c, trace, s) && e.Changed? && e.id in s.users
    ensures AccountInv(c, trace + [e], After(s, SetPassword(e.id, HashPassword(c.digest, e.password))))
  {
    BirthKept(trace, trace + [e], s, After(s, SetPassword(e.id, HashPassword(c.digest, e.password))));
    PasswordOfChange(c, trace, s, e);
    IdentityOfChange(c, trace, s, e);
    ChangesKept(trace, e);
  }

  lemma CreateStep(c: Config, w: World, r: nat, skip: nat, net: Net)
    requires Inv(c, w) && r in w.pending && w.pending[r].NameFree?
    ensures Inv(c, Create(c, w, r, skip, net))
  {
    var p := w.pending[r];
    var q := InsertUser(p.username, HashPassword(c.digest, p.password), p.licence.email, skip);
    if net.connected && net.first && Exec(w.db, q).Done? {
      var e := Born(Exec(w.db, q).lastId, p.username, p.password, p.licence);
      StatementKeepsInv(w.db, q);
      InsertKeepsAccounts(c, w.trace, w.db, q, e);
      RequestDone(c, w.log, w.pending, w.trace, r, e);
    }
  }

  lemma ChangeStep(c: Config, w: World, r: nat, net: Net)
    requires Inv(c, w) && r in w.pending && w.pending[r].MayChange?
    ensures Inv(c, Change(c, w, r, net))
  {
    var p := w.pending[r];
    if net.connected && net.first {
      StatementKeepsInv(w.db, SetPassword(p.id, HashPassword(c.digest, p.password)));
      if p.id in w.db.users {
        var e := Changed(p.id, p.password, p.licence, p.pass);
        ChangeKeepsAccounts(c, w.trace, w.db, e);
        RequestDone(c, w.log, w.pending, w.trace, r, e);
      }
    }
  }

  lemma OtherKeepsPasswords(c: Config, trace: seq<Effect>, s: Store, q: Statement)
    requires StoreInv(s) && PasswordInv(c, trace, s) && !q.InsertUser? && !q.SetPassword?
    ensures PasswordInv(c, trace, After(s, q)) && After(s, q).users.Keys <= s.users.Keys
  {
    forall id | id in After(s, q).users
      ensures id in s.users && After(s, q).users[id].passwdHash == s.users[id].passwdHash
    {
      StatementAndHash(s, q, id);
    }
  }

  lemma OtherKeepsIdentities(trace: seq<Effect>, s: Store, q: Statement)
    requires IdentityInv(trace, s) && !q.InsertUser? && !q.UpdateUser?
    ensures IdentityInv(trace, After(s, q))
  {
    forall id | id in After(s, q).users
      ensures LastIdentity(trace, id) == Some((After(s, q).users[id].username, After(s, q).users[id].email))
    {
      IdentityUntouched(s, q, id);
    }
  }

  lemma RenameKeepsAccounts(c: Config, trace: seq<Effect>, s: Store, q: Statement)
    requires StoreInv(s) && AccountInv(c, trace, s)
    requires q.UpdateUser? && q.id in s.users && Exec(s, q).Done?
    ensures AccountInv(c, trace + [Renamed(q.id, q.username, q.email)], After(s, q))
  {
    OtherKeepsPasswords(c, trace, s, q);
    StatementIsLater(s, q);
    BirthKept(trace, trace + [Renamed(q.id, q.username, q.email)], s, After(s, q));
    AppendRename(c, trace, s, q);
    ChangesKept(trace, Renamed(q.id, q.username, q.email));
  }

  lemma NoRenameKeepsAccounts(c: Config, trace: seq<Effect>, s: Store, q: Statement)
    requires StoreInv(s) && AccountInv(c, trace, s)
    requires !q.InsertUser? && !q.SetPassword? && !(q.UpdateUser? && q.id in s.users && Exec(s, q).Done?)
    ensures AccountInv(c, trace, After(s, q))
  {
    if q.UpdateUser? {
      assert After(s, q) == s;
    } else {
      OtherKeepsPasswords(c, trace, s, q);
      StatementIsLater(s, q);
      BirthKept(trace, trace, s, After(s, q));
      OtherKeepsIdentities(trace, s, q);
    }
  }

  lemma TraceInvAppend(c: Config, log: seq<Codes.Event>, trace: seq<Effect>, e: Effect)
    requires TraceInv(c, log, trace) && e.Renamed?
    ensures TraceInv(c, log, trace + [e])
  {
  }

  lemma OtherStep(c: Config, w: World, q: Statement)
    requires Inv(c, w) && !q.InsertUser? && !q.SetPassword?
    ensures Inv(c, Executed(w, q))
  {
    StatementKeepsInv(w.db, q);
    if q.UpdateUser? && q.id in w.db.users && Exec(w.db, q).Done? {
      RenameKeepsAccounts(c, w.trace, w.db, q);
      TraceInvAppend(c, w.log, w.trace, Renamed(q.id, q.username, q.email));
    } else {
      NoRenameKeepsAccounts(c, w.trace, w.db, q);
    }
  }

  lemma MailStep(c: Config, w: World, i: Input)
    requires Inv(c, w) && (i.GetCode? || i.Sweep?) && Enabled(c, w, i)
    ensures Inv(c, Apply(c, w, i))
  {
    if i.Sweep? {
      LoggedKeepsInv(c, w, Codes.Sweep(i.at, i.reading));
    } else if MaySend(i.body) {
      LoggedKeepsInv(c, w, Codes.Send(i.at, i.body["email"], i.body["action"], i.code, i.delivered));
    }
  }

  lemma VerifyStep(c: Config, w: World, i: Input)
    requires Inv(c, w) && (i.RegisterVerify? || i.ChangeVerify?) && Enabled(c, w, i)
    ensures Inv(c, Apply(c, w, i))
  {
    if i.RegisterVerify? {
      CheckedKeepsInv(c, w, i.at, i.r, i.email, "register", i.code,
                      licence => Verified(i.username, i.password, licence));
    } else {
      CheckedKeepsInv(c, w, i.at, i.r, i.email, "reset_password", i.code,
                      licence => MayChange(AccountOf(i.pass.token).value, i.password, licence, i.pass));
    }
  }

  lemma LookupStep(c: Config, w: World, r: nat, net: Net)
    requires Inv(c, w) && r in w.pending && w.pending[r].Verified?
    ensures Inv(c, LookedUp(w, r, net))
  {
  }

  lemma StepKeepsInv(c: Config, w: World, i: Input)
    requires Inv(c, w) && Enabled(c, w, i)
    ensures Inv(c, Apply(c, w, i))
  {
    match i {
      case GetCode(_, _, _, _) => MailStep(c, w, i);
      case Sweep(_, _) => MailStep(c, w, i);
      case RegisterVerify(_, _, _, _, _, _) => VerifyStep(c, w, i);
      case RegisterLookup(r, net) => LookupStep(c, w, r, net);
      case RegisterCreate(r, skip, net) => CreateStep(c, w, r, skip, net);
      case ChangeVerify(_, _, _, _, _, _) => VerifyStep(c, w, i);
      case ChangeWrite(r, net) => ChangeStep(c, w, r, net);
      case Restart(at) => LoggedKeepsInv(c, w, Codes.Restart(at));
      case Other(q) => OtherStep(c, w, q);
    }
  }

  lemma {:induction false} InvAlways(c: Config, w: World, inputs: seq<Input>)
    requires Inv(c, w) && ValidRun(c, w, inputs)
    ensures Inv(c, AfterRun(c, w, inputs))
    decreases inputs
  {
    if inputs != [] {
      StepKeepsInv(c, w, inputs[0]);
      InvAlways(c, Apply(c, w, inputs[0]), inputs[1..]);
    }
  }

  // ---------------------------------------------------------------------------------
  // Registration safety
  // ---------------------------------------------------------------------------------

  ghost predicate NeverRenamed(trace: seq<Effect>, id: int) {
    forall k :: 0 <= k < |trace| && trace[k].Renamed? ==> trace[k].id != id
  }

  lemma {:induction false} IdentityIsBirth(trace: seq<Effect>, k: nat, id: int)
    requires IsBirth(trace, k, id) && NeverRenamed(trace, id)
    requires forall j :: IsBirth(trace, j, id) ==> j == k
    ensures LastIdentity(trace, id) == Some((trace[k].username, trace[k].licence.email))
  {
    var n := |trace| - 1;
    if k < n {
      assert !IsBirth(trace, n, id);
      forall j | IsBirth(trace[..n], j, id) ensures j == k {
        assert IsBirth(trace, j, id);
      }
      IdentityIsBirth(trace[..n], k, id);
    }
  }

  /** However requests interleave, every account there is was registered, once: its birth
      is in the trace, and when its code was verified the latest successful mail to its
      address was a "register" mail with that code, not older than the expiry. It still has
      the name and address of its registration unless updateUser changed them, and user
      names and addresses are pairwise distinct throughout. */
  lemma RegistrationSafety(c: Config, now: int, inputs: seq<Input>, id: int) returns (k: nat)
    requires ValidRun(c, Start(now), inputs)
    requires id in AfterRun(c, Start(now), inputs).db.users
    ensures var w := AfterRun(c, Start(now), inputs);
            && UsersInv(w.db)
            && IsBirth(w.trace, k, id) && (forall j :: IsBirth(w.trace, j, id) ==> j == k)
            && var l := w.trace[k].licence;
               && l.seen <= |w.log| && IsValidEmail(l.email)
               && Codes.LogAccepts(w.log[..l.seen], c.expiry, l.email, "register", l.code, l.at)
               && (NeverRenamed(w.trace, id) ==>
                     w.db.users[id].username == w.trace[k].username && w.db.users[id].email == l.email)
  {
    StartInv(c, now);
    InvAlways(c, Start(now), inputs);
    var w := AfterRun(c, Start(now), inputs);
    k :| IsBirth(w.trace, k, id);
    assert Licensed(c, w.log, w.trace[k].licence);
    if NeverRenamed(w.trace, id) {
      IdentityIsBirth(w.trace, k, id);
    }
  }

  /** No password was ever changed without a token naming the account and a live
      "reset_password" code. */
  lemma PasswordChangeSafety(c: Config, now: int, inputs: seq<Input>, k: nat)
    requires ValidRun(c, Start(now), inputs)
    requires k < |AfterRun(c, Start(now), inputs).trace| && AfterRun(c, Start(now), inputs).trace[k].Changed?
    ensures var w := AfterRun(c, Start(now), inputs);
            var e, l := w.trace[k], w.trace[k].licence;
            && Authorises(c, e.pass, e.id)
            && l.seen <= |w.log|
            && Codes.LogAccepts(w.log[..l.seen], c.expiry, l.email, "reset_password", l.code, l.at)
  {
    StartInv(c, now);
    InvAlways(c, Start(now), inputs);
  }

  // ---------------------------------------------------------------------------------
  // The address behind a password change
  // ---------------------------------------------------------------------------------

  predicate Requests(i: Input, e: Effect) {
    && i.ChangeVerify? && e.Changed? && i.pass == e.pass && i.password == e.password
    && i.email == e.licence.email && i.code == e.licence.code && i.at == e.licence.at
  }

  predicate Leads(p: Pending, e: Effect) {
    p.MayChange? && e.Changed? && p.pass == e.pass && p.password == e.password && p.licence == e.licence
  }

  lemma NewPending(c: Config, w: World, i: Input, r: nat, e: Effect)
    requires Enabled(c, w, i) && r in Apply(c, w, i).pending && Leads(Apply(c, w, i).pending[r], e)
    ensures Requests(i, e) || (r in w.pending && Leads(w.pending[r], e))
  {
  }

  lemma NewEffect(c: Config, w: World, i: Input, k: nat)
    requires Enabled(c, w, i) && |w.trace| <= k < |Apply(c, w, i).trace| && Apply(c, w, i).trace[k].Changed?
    ensures i.ChangeWrite? && Leads(w.pending[i.r], Apply(c, w, i).trace[k])
  {
  }

  /** A password change of a run comes from a request of the run, or from one already pending. */
  lemma {:induction false} ChangeOrigin(c: Config, w: World, inputs: seq<Input>, k: nat)
    requires ValidRun(c, w, inputs)
    requires |w.trace| <= k < |AfterRun(c, w, inputs).trace| && AfterRun(c, w, inputs).trace[k].Changed?
    ensures var e := AfterRun(c, w, inputs).trace[k];
            || (exists r :: r in w.pending && Leads(w.pending[r], e))
            || (exists p :: 0 <= p < |inputs| && Requests(inputs[p], e))
    decreases inputs
  {
    var i, next := inputs[0], Apply(c, w, inputs[0]);
    TraceGrows(c, next, inputs[1..]);
    var e := AfterRun(c, w, inputs).trace[k];
    if k < |next.trace| {
      NewEffect(c, w, i, k);
    } else {
      ChangeOrigin(c, next, inputs[1..], k);
      if r :| r in next.pending && Leads(next.pending[r], e) {
        NewPending(c, w, i, r, e);
      } else {
        var p :| 0 <= p < |inputs[1..]| && Requests(inputs[1..][p], e);
        assert inputs[p + 1] == inputs[1..][p];
      }
    }
  }

  /** A live "reset_password" code for `address` was behind the change. */
  ghost predicate RestsOn(c: Config, log: seq<Codes.Event>, e: Effect, address: string)
    requires e.Changed? && e.licence.seen <= |log|
  {
    var l := e.licence;
    l.email == address && Codes.LogAccepts(log[..l.seen], c.expiry, address, "reset_password", l.code, l.at)
  }

  /** Every password change comes from one request whose token named the account, and it
      rests on a code for the address the account had then exactly when the request named
      that address. */
  lemma ChangeRestsOnAddressNamed(c: Config, now: int, inputs: seq<Input>, k: nat) returns (p: nat)
    requires ValidRun(c, Start(now), inputs)
    requires k < |AfterRun(c, Start(now), inputs).trace| && AfterRun(c, Start(now), inputs).trace[k].Changed?
    ensures var w := AfterRun(c, Start(now), inputs);
            var e := w.trace[k];
            && p < |inputs| && Requests(inputs[p], e) && Authorises(c, inputs[p].pass, e.id)
            && e.licence.seen <= |w.log| && LastIdentity(w.trace[..k], e.id).Some?
            && var address := LastIdentity(w.trace[..k], e.id).value.1;
               RestsOn(c, w.log, e, address) <==> inputs[p].email == address
  {
    StartInv(c, now);
    InvAlways(c, Start(now), inputs);
    ChangeOrigin(c, Start(now), inputs, k);
    var w := AfterRun(c, Start(now), inputs);
    p :| 0 <= p < |inputs| && Requests(inputs[p], w.trace[k]);
    assert Licensed(c, w.log, w.trace[k].licence);
  }

  /** The two need not be the same: from any reachable state a request that names any
      well-formed address, with the code mailed there, changes the password of the account
      its token names. */
  lemma AnyAddressServes(c: Config, w: World, r: nat, id: int, pass: Pass, body: Body, code: string,
                         password: string, at: int)
    returns (inputs: seq<Input>)
    requires Inv(c, w) && w.now <= at && r !in w.pending && c.expiry >= 0
    requires id in w.db.users && Authorises(c, pass, id)
    requires MaySend(body) && body["action"] == "reset_password"
    ensures ValidRun(c, w, inputs)
    ensures var w' := AfterRun(c, w, inputs);
            && |w'.trace| == |w.trace| + 1 && w'.trace[..|w.trace|] == w.trace
            && var e := w'.trace[|w.trace|];
               && e.Changed? && e.id == id && e.password == password && e.licence.email == body["email"]
               && LastIdentity(w.trace, id) == Some((w.db.users[id].username, w.db.users[id].email))
  {
    var email, net := body["email"], Net(true, true, true);
    var i1, i2 := GetCode(at, body, code, true), ChangeVerify(at, r, pass, password, email, code);
    var i3 := ChangeWrite(r, net);
    inputs := [i1, i2, i3];
    var w1 := Apply(c, w, i1);
    var w2 := Apply(c, w1, i2);
    assert w1.codes == Codes.Stored(w.codes, email, "reset_password", code, at, c.expiry);
    assert Codes.Accepts(w1.codes, email, "reset_password", code, at);
    RunOfThree(c, w, i1, i2, i3);
  }

  // ---------------------------------------------------------------------------------
  // Login
  // ---------------------------------------------------------------------------------

  lemma LoginToAccount(c: Config, s: Store, signer: Signer, body: Body, now: int, net: Net, id: int)
    requires StoreInv(s) && net.connected && net.first && "username" in body && "password" in body
    requires id in s.users && s.users[id].username == body["username"]
    ensures Login(c.digest, signer, s, body, now, net) ==
              if VerifyPassword(c.digest, body["password"], s.users[id].passwdHash)
              then LoggedIn(FieldsOf(BuildFromResultSet(id, s.users[id])),
                            LoginToken(signer, body["username"], id, s.users[id].email, now))
              else AccessDenied
  {
    AccountNamedIs(s, id);
  }

  /** Login succeeds exactly when the digest of the given password is that of the password
      last given for the account; the token then names that account. */
  lemma LoginDecidesByLastPassword(c: Config, w: World, signer: Signer, body: Body, now: int, net: Net, id: int)
    requires Inv(c, w) && net.connected && net.first
    requires "username" in body && "password" in body
    requires id in w.db.users && w.db.users[id].username == body["username"]
    ensures var response := Login(c.digest, signer, w.db, body, now, net);
            && LastPassword(w.trace, id).Some?
            && (response.LoggedIn? <==> c.digest(body["password"]) == c.digest(LastPassword(w.trace, id).value))
            && (response.LoggedIn? ==> response.user.id == id && AccountOf(response.token) == Some(id))
            && (!response.LoggedIn? ==> response == AccessDenied)
  {
    LoginToAccount(c, w.db, signer, body, now, net, id);
    VerifyIsDigestEquality(c.digest, body["password"], LastPassword(w.trace, id).value);
    LoginTokenNamesAccount(signer, body["username"], id, w.db.users[id].email, now);
  }

  // ---------------------------------------------------------------------------------
  // Token identity
  // ---------------------------------------------------------------------------------

  lemma {:induction false} TraceGrows(c: Config, w: World, inputs: seq<Input>)
    requires ValidRun(c, w, inputs)
    ensures w.trace <= AfterRun(c, w, inputs).trace
    ensures Later(w.db, AfterRun(c, w, inputs).db)
    decreases inputs
  {
    if inputs != [] {
      StepGrows(c, w, inputs[0]);
      TraceGrows(c, Apply(c, w, inputs[0]), inputs[1..]);
    }
  }

  lemma StepGrows(c: Config, w: World, i: Input)
    requires Enabled(c, w, i)
    ensures w.trace <= Apply(c, w, i).trace && Later(w.db, Apply(c, w, i).db)
  {
    match i {
      case RegisterCreate(r, skip, net) =>
        var p := w.pending[r];
        StatementIsLater(w.db, InsertUser(p.username, HashPassword(c.digest, p.password), p.licence.email, skip));
      case ChangeWrite(r, net) =>
        StatementIsLater(w.db, SetPassword(w.pending[r].id, HashPassword(c.digest, w.pending[r].password)));
      case Other(q) => StatementIsLater(w.db, q);
      case _ =>
    }
  }

  /** The birth of an account is in every later trace, and stays its only one. */
  lemma SameAccountLater(c: Config, w: World, inputs: seq<Input>, id: int) returns (k: nat)
    requires Inv(c, w) && ValidRun(c, w, inputs) && id in w.db.users
    ensures var w' := AfterRun(c, w, inputs);
            IsBirth(w.trace, k, id) && IsBirth(w'.trace, k, id) && forall j :: IsBirth(w'.trace, j, id) ==> j == k
  {
    InvAlways(c, w, inputs);
    TraceGrows(c, w, inputs);
    k :| IsBirth(w.trace, k, id);
  }

  /** What the token of a login gets from any tables at any time. */
  lemma ProfileOfLogin(c: Config, s: Store, signer: Signer, body: Body, now: int, net: Net,
                       s': Store, t1: int, t2: int, later: Net)
    requires Login(c.digest, signer, s, body, now, net).LoggedIn? && t1 <= t2
    ensures var login := Login(c.digest, signer, s, body, now, net);
            var id, response := login.user.id, GetProfile(signer, s', Some(login.token), t1, t2, later);
            && id in s.users
            && (response == AccessDenied <==>
                  t1 < (now / TICKS - LEEWAY) * TICKS || t2 > (now / TICKS + LOGIN_VALID_FOR) * TICKS)
            && (response != AccessDenied ==>
                  if id in s'.users && later.connected && later.first
                  then response == Profile(FieldsOf(BuildFromResultSet(id, s'.users[id]))) else response == NotFound)
  {
    var id := AccountNamed(s, body["username"]).value;
    var row := s.users[id];
    LoginTokenNamesAccount(signer, row.username, id, row.email, now);
    AcceptanceWindow(signer, row.username, LoginClaims(id, row.email), LOGIN_VALID_FOR, now, t1, t2);
  }

  /** A token handed out by a login, presented after any further run, is refused outside
      its window; inside it, it resolves to the account that logged in (the one with the
      same birth), or to nothing when that account is gone or cannot be read. It never
      resolves to another account, and it never makes the handler fail. */
  lemma TokenIdentity(c: Config, w: World, signer: Signer, body: Body, now: int, net: Net,
                      inputs: seq<Input>, t1: int, t2: int, later: Net)
    returns (k: nat)
    requires Inv(c, w) && Login(c.digest, signer, w.db, body, now, net).LoggedIn?
    requires ValidRun(c, w, inputs) && t1 <= t2
    ensures var login := Login(c.digest, signer, w.db, body, now, net);
            var id, w' := login.user.id, AfterRun(c, w, inputs);
            var response := GetProfile(signer, w'.db, Some(login.token), t1, t2, later);
            && (response == AccessDenied <==>
                  t1 < (now / TICKS - LEEWAY) * TICKS || t2 > (now / TICKS + LOGIN_VALID_FOR) * TICKS)
            && (response != AccessDenied ==>
                  if id in w'.db.users && later.connected && later.first
                  then response == Profile(FieldsOf(BuildFromResultSet(id, w'.db.users[id]))) else response == NotFound)
            && IsBirth(w.trace, k, id) && IsBirth(w'.trace, k, id)
            && (forall j :: IsBirth(w'.trace, j, id) ==> j == k)
  {
    ProfileOfLogin(c, w.db, signer, body, now, net, AfterRun(c, w, inputs).db, t1, t2, later);
    k := SameAccountLater(c, w, inputs, Login(c.digest, signer, w.db, body, now, net).user.id);
  }

  /** An id, once its account is deleted, resolves to nothing for ever. */
  lemma DeletedStaysDeleted(c: Config, w: World, inputs: seq<Input>, id: int)
    requires Inv(c, w) && ValidRun(c, w, inputs)
    requires id !in w.db.users && id < w.db.nextUser
    ensures id !in AfterRun(c, w, inputs).db.users
  {
    TraceGrows(c, w, inputs);
  }

  // ---------------------------------------------------------------------------------
  // The sequential handler is a run
  // ---------------------------------------------------------------------------------

  lemma VerifyPhase(c: Config, w: World, i: Input)
    requires i.RegisterVerify? && Enabled(c, w, i)
    ensures var w1 := Apply(c, w, i);
            && w1.db == w.db && w1.trace == w.trace
            && (i.r in w1.pending <==> Codes.Accepts(w.codes, i.email, "register", i.code, i.at))
            && (if i.r in w1.pending
                then w1.pending == w.pending[i.r := Verified(i.username, i.password,
                                                             Licence(i.email, "register", i.code, i.at, |w.log|))]
                else w1.pending == w.pending)
  {
  }

  lemma LookupPhase(c: Config, w: World, i: Input)
    requires i.RegisterLookup? && Enabled(c, w, i)
    ensures var w1, p := Apply(c, w, i), w.pending[i.r];
            && w1.db == w.db && w1.trace == w.trace
            && (i.r !in w1.pending <==> i.net.connected && i.net.first && NameTaken(w.db, p.username, 0))
            && (if i.r in w1.pending then w1.pending == w.pending[i.r := NameFree(p.username, p.password, p.licence)]
                else w1.pending == w.pending - {i.r})
  {
  }

  lemma CreatePhase(c: Config, w: World, i: Input)
    requires i.RegisterCreate? && Enabled(c, w, i)
    ensures var w1, p := Apply(c, w, i), w.pending[i.r];
            var q := InsertUser(p.username, HashPassword(c.digest, p.password), p.licence.email, i.skip);
            && w1.pending == w.pending - {i.r}
            && (if i.net.connected && i.net.first && Exec(w.db, q).Done?
                then w1.db == Exec(w.db, q).store
                     && w1.trace == w.trace + [Born(Exec(w.db, q).lastId, p.username, p.password, p.licence)]
                else w1.db == w.db && w1.trace == w.trace)
  {
  }

  /** handleGetVerifyCode and the sweep in one step each: the code store of the handler, an
      entry in the log, and nothing else touched. */
  lemma MailIsAStep(c: Config, w: World, i: Input)
    requires (i.GetCode? || i.Sweep? || i.Restart?) && Enabled(c, w, i)
    ensures var w' := Apply(c, w, i);
            && w'.now == i.at && w'.db == w.db && w'.trace == w.trace
            && w'.pending == (if i.Restart? then map[] else w.pending)
            && w'.codes == (if i.Restart? then map[]
                            else if i.Sweep? then Codes.Swept(w.codes, i.reading)
                            else if MaySend(i.body) && i.delivered
                            then w.codes[i.body["email"] := Codes.VerifyInfo(i.code, i.at + c.expiry, i.body["action"])]
                            else w.codes)
  {
  }

  /** handleRegister without interference is its three steps in a row, as far as it gets:
      same tables, nothing left pending, and it answers with an id exactly when a birth was
      added and its id read back. */
  lemma RegisterIsARun(c: Config, w: World, r: nat, body: Body, at: int, skip: nat, lookup: Net, create: Net)
    returns (inputs: seq<Input>)
    requires w.now <= at && r !in w.pending
    requires {"username", "password", "email", "verify_code"} <= body.Keys
    ensures ValidRun(c, w, inputs)
    ensures var (tables, response) := Register(c.digest, w.codes, w.db, body, at, skip, lookup, create);
            var w' := AfterRun(c, w, inputs);
            && w'.db == tables && w'.pending == w.pending
            && (response.Registered? <==> create.second && |w'.trace| == |w.trace| + 1)
            && (response.Registered? ==> IsBirth(w'.trace, |w.trace|, response.id))
  {
    assert "username" in body && "password" in body && "email" in body && "verify_code" in body;
    var i1 := RegisterVerify(at, r, body["username"], body["password"], body["email"], body["verify_code"]);
    var i2, i3 := RegisterLookup(r, lookup), RegisterCreate(r, skip, create);
    var w1 := Apply(c, w, i1);
    VerifyPhase(c, w, i1);
    if r !in w1.pending {
      inputs := [i1];
      RunOfOne(c, w, i1);
      return;
    }
    var w2 := Apply(c, w1, i2);
    LookupPhase(c, w1, i2);
    if r !in w2.pending {
      inputs := [i1, i2];
      RunOfTwo(c, w, i1, i2);
      assert w.pending[r := w1.pending[r]] - {r} == w.pending;
      return;
    }
    CreatePhase(c, w2, i3);
    inputs := [i1, i2, i3];
    RunOfThree(c, w, i1, i2, i3);
    assert w2.pending - {r} == w.pending;
  }

  /** handleChangePassword without interference, behind an accepted token. */
  lemma ChangePasswordIsARun(c: Config, w: World, r: nat, body: Body, pass: Pass, at: int, net: Net)
    returns (inputs: seq<Input>)
    requires w.now <= at && r !in w.pending
    requires {"new_password", "verify_code", "email"} <= body.Keys
    requires TokenAccepted(c.signer, Some(pass.token), pass.t1, pass.t2) && AccountOf(pass.token).Some?
    ensures ValidRun(c, w, inputs)
    ensures var (tables, response) := ChangePassword(c.digest, c.signer, w.codes, w.db, body, Some(pass.token),
                                                    pass.t1, pass.t2, at, net);
            var w' := AfterRun(c, w, inputs);
            && w'.db == tables && w'.pending == w.pending
            && (response.PasswordChanged? && AccountOf(pass.token).value in w.db.users <==> |w'.trace| == |w.trace| + 1)
            && (|w'.trace| > |w.trace| ==>
                  && w'.trace[|w.trace|].Changed? && w'.trace[|w.trace|].id == AccountOf(pass.token).value
                  && w'.trace[|w.trace|].password == body["new_password"])
  {
    assert "new_password" in body && "verify_code" in body && "email" in body;
    var i1 := ChangeVerify(at, r, pass, body["new_password"], body["email"], body["verify_code"]);
    var w1 := Apply(c, w, i1);
    if r !in w1.pending {
      inputs := [i1];
      RunOfOne(c, w, i1);
      return;
    }
    var i2 := ChangeWrite(r, net);
    inputs := [i1, i2];
    RunOfTwo(c, w, i1, i2);
    assert w1.pending - {r} == w.pending;
  }

  lemma RunOfOne(c: Config, w: World, i1: Input)
    requires Enabled(c, w, i1)
    ensures ValidRun(c, w, [i1]) && AfterRun(c, w, [i1]) == Apply(c, w, i1)
  {
    assert [i1][1..] == [];
  }

  lemma RunOfTwo(c: Config, w: World, i1: Input, i2: Input)
    requires Enabled(c, w, i1) && Enabled(c, Apply(c, w, i1), i2)
    ensures ValidRun(c, w, [i1, i2]) && AfterRun(c, w, [i1, i2]) == Apply(c, Apply(c, w, i1), i2)
  {
    assert [i1, i2][1..] == [i2];
    RunOfOne(c, Apply(c, w, i1), i2);
  }

  lemma RunOfThree(c: Config, w: World, i1: Input, i2: Input, i3: Input)
    requires Enabled(c, w, i1) && Enabled(c, Apply(c, w, i1), i2) && Enabled(c, Apply(c, Apply(c, w, i1), i2), i3)
    ensures ValidRun(c, w, [i1, i2, i3])
    ensures AfterRun(c, w, [i1, i2, i3]) == Apply(c, Apply(c, Apply(c, w, i1), i2), i3)
  {
    assert [i1, i2, i3][1..] == [i2, i3];
    RunOfTwo(c, Apply(c, w, i1), i2, i3);
  }
}
