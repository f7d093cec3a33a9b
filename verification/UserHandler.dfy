/**
 The account handlers of src/handlers/UserHandler.cpp, one request at a time. A request
 body is the map of its text fields; malformed JSON is not modelled.
 */
module UserHandler {
  import opened Database
  import opened EmailAddress
  import opened JWTUtil
  import opened PasswordUtil
  import opened Schema
  import opened UserDAO
  import opened Wrappers
  import Codes = VerifyService
  import EmailUtil

  type Body = map<string, string>

  /** What a response says of a user: everything but the password hash. */
  datatype UserFields = UserFields(id: int, username: string, email: string, qqId: string, neteaseId: string)

  function FieldsOf(user: User): UserFields {
    UserFields(user.id, user.username, user.email, user.qqId, user.neteaseId)
  }

  datatype Response =
    | BadRequest | AccessDenied | NotFound | Conflict | ServerError
    | CodeSent
    | Registered(id: int)
    | LoggedIn(user: UserFields, token: Token)
    | Profile(user: UserFields)
    | PasswordChanged

  const ACTIONS: set<string> := {"register", "reset_password"}

  /** A code is mailed only to a well-formed address and for one of the two actions. */
  predicate MaySend(body: Body) {
    "email" in body && "action" in body && IsValidEmail(body["email"]) && body["action"] in ACTIONS
  }

  /** handleRegister up to its answer: the code, the name, then the insert. A failed
      name look-up counts as a free name; the unique keys decide in the end. */
  ghost function Register(digest: string -> Digest, codes: Codes.Codes, s: Store, body: Body, now: int,
                          skip: nat, lookup: Net, create: Net): (Store, Response)
  {
    if !({"username", "password", "email", "verify_code"} <= body.Keys) then (s, BadRequest)
    else if !Codes.Accepts(codes, body["email"], "register", body["verify_code"], now) then (s, BadRequest)
    else if lookup.connected && lookup.first && NameTaken(s, body["username"], 0) then (s, Conflict)
    else if !create.connected || !create.first then (s, ServerError)
    else
      match Exec(s, InsertUser(body["username"], HashPassword(digest, body["password"]), body["email"], skip))
      case SqlError => (s, ServerError)
      case Done(t, _, id) => (t, if create.second then Registered(id) else ServerError)
  }

  ghost function Login(digest: string -> Digest, signer: Signer, s: Store, body: Body, now: int, net: Net): Response {
    if !({"username", "password"} <= body.Keys) then BadRequest
    else
      var account := if net.connected && net.first then AccountNamed(s, body["username"]) else None;
      if account.None? then NotFound
      else
        var id := account.value;
        var row := s.users[id];
        if !VerifyPassword(digest, body["password"], row.passwdHash) then AccessDenied
        else LoggedIn(FieldsOf(BuildFromResultSet(id, row)), LoginToken(signer, row.username, id, row.email, now))
  }

  /** A missing or undecodable Authorization header is `None`. */
  predicate TokenAccepted(signer: Signer, token: Option<Token>, t1: int, t2: int) {
    token.Some? && Accepts(signer, token.value, t1, t2)
  }

  function GetProfile(signer: Signer, s: Store, token: Option<Token>, t1: int, t2: int, net: Net): Response {
    if !TokenAccepted(signer, token, t1, t2) then AccessDenied
    else
      match AccountOf(token.value)
      case None => ServerError
      case Some(id) =>
        if net.connected && net.first && id in s.users then Profile(FieldsOf(BuildFromResultSet(id, s.users[id])))
        else NotFound
  }

  function ChangePassword(digest: string -> Digest, signer: Signer, codes: Codes.Codes, s: Store, body: Body,
                          token: Option<Token>, t1: int, t2: int, now: int, net: Net): (Store, Response)
  {
    if !({"new_password", "verify_code", "email"} <= body.Keys) then (s, BadRequest)
    else if !TokenAccepted(signer, token, t1, t2) then (s, AccessDenied)
    else
      match AccountOf(token.value)
      case None => (s, ServerError)
      case Some(id) =>
        if !Codes.Accepts(codes, body["email"], "reset_password", body["verify_code"], now) then (s, BadRequest)
        else if !net.connected || !net.first then (s, ServerError)
        else (After(s, SetPassword(id, HashPassword(digest, body["new_password"]))), PasswordChanged)
  }

  class UserHandler {
    const service: Codes.VerifyService
    const dao: UserDAO
    const signer: Signer
    const digest: string -> Digest

    constructor (service: Codes.VerifyService, dao: UserDAO, signer: Signer, digest: string -> Digest)
      ensures this.service == service && this.dao == dao && this.signer == signer && this.digest == digest
    {
      this.service, this.dao, this.signer, this.digest := service, dao, signer, digest;
    }

    /** A code is mailed to a well-formed address for one of the two actions, and stored when
        the mail was delivered; nothing else changes the code store. */
    method HandleGetVerifyCode(body: Body, draw: nat -> nat, mail: Codes.Transfer, now: int, expiry: int)
      returns (response: Response, code: string, wire: string)
      requires forall i: nat :: draw(i) < 10
      modifies service
      ensures response == if !MaySend(body) then BadRequest else if mail.performed then CodeSent else ServerError
      ensures MaySend(body) ==> |code| == 6 && forall i :: 0 <= i < 6 ==> code[i] == "0123456789"[draw(i)]
      ensures service.codes == if response.CodeSent?
                               then Codes.Stored(old(service.codes), body["email"], body["action"], code, now, expiry)
                               else old(service.codes)
      ensures MaySend(body) && !EmailUtil.HasLineBreak(mail.from) &&
              |wire| == |EmailUtil.CodeMail(body["email"], mail.from, code)| ==>
                EmailUtil.ParseMessage(wire) ==
                Some(EmailUtil.Message(["To: " + body["email"], "From: " + mail.from, "Subject: Verification Code"],
                                       "Your verification code is: " + code))
      ensures !MaySend(body) ==> wire == ""
    {
      code, wire := "", "";
      if "email" !in body || "action" !in body {
        return BadRequest, code, wire;
      }
      if !IsValidEmail(body["email"]) {
        return BadRequest, code, wire;
      }
      if body["action"] == "register" || body["action"] == "reset_password" {
        var sent;
        sent, code, wire := service.SendVerifyCode(body["email"], body["action"], draw, mail, now, expiry);
        return if sent then CodeSent else ServerError, code, wire;
      }
      return BadRequest, code, wire;
    }

    method HandleRegister(body: Body, now: int, skip: nat, lookup: Net, create: Net) returns (response: Response)
      requires dao.db.Valid()
      modifies dao.db
      ensures dao.db.Valid()
      ensures (dao.db.tables, response) ==
              Register(digest, service.codes, old(dao.db.tables), body, now, skip, lookup, create)
    {
      if "username" !in body || "password" !in body || "email" !in body || "verify_code" !in body {
        return BadRequest;
      }
      var verified := service.VerifyCode(body["email"], "register", body["verify_code"], now);
      if !verified {
        return BadRequest;
      }
      var existing := dao.GetUserByUsername(body["username"], lookup);
      if existing.Some? {
        return Conflict;
      }
      var user := User(0, body["username"], body["password"], body["email"], "", "");
      var ok, created := dao.CreateUser(digest, user, skip, create);
      if !ok {
        return ServerError;
      }
      return Registered(created.id);
    }

    method HandleLogin(body: Body, now: int, net: Net) returns (response: Response)
      requires dao.db.Valid()
      ensures response == Login(digest, signer, dao.db.tables, body, now, net)
    {
      if "username" !in body || "password" !in body {
        return BadRequest;
      }
      var user := dao.GetUserByUsername(body["username"], net);
      if user.None? {
        return NotFound;
      }
      if !VerifyPassword(digest, body["password"], user.value.passwdHash) {
        return AccessDenied;
      }
      var token := GenerateToken(signer, user.value.username, LoginClaims(user.value.id, user.value.email),
                                 LOGIN_VALID_FOR, now);
      return LoggedIn(FieldsOf(user.value), token);
    }

    method HandleGetProfile(token: Option<Token>, t1: int, t2: int, net: Net) returns (response: Response)
      ensures response == GetProfile(signer, dao.db.tables, token, t1, t2, net)
    {
      if !TokenAccepted(signer, token, t1, t2) {
        return AccessDenied;
      }
      var id := AccountOf(token.value);
      if id.None? {
        return ServerError;
      }
      var user := dao.GetUserById(id.value, net);
      if user.None? {
        return NotFound;
      }
      return Profile(FieldsOf(user.value));
    }

    method HandleChangePassword(body: Body, token: Option<Token>, t1: int, t2: int, now: int, net: Net)
      returns (response: Response)
      requires dao.db.Valid()
      modifies dao.db
      ensures dao.db.Valid()
      ensures (dao.db.tables, response) ==
              ChangePassword(digest, signer, service.codes, old(dao.db.tables), body, token, t1, t2, now, net)
    {
      if "new_password" !in body || "verify_code" !in body || "email" !in body {
        return BadRequest;
      }
      if !TokenAccepted(signer, token, t1, t2) {
        return AccessDenied;
      }
      var id := AccountOf(token.value);
      if id.None? {
        return ServerError;
      }
      var verified := service.VerifyCode(body["email"], "reset_password", body["verify_code"], now);
      if !verified {
        return BadRequest;
      }
      var updated := dao.UpdatePassword(digest, id.value, body["new_password"], net);
      if !updated {
        return ServerError;
      }
      return PasswordChanged;
    }
  }
}
