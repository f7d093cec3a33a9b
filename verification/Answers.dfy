/**
 What each account handler answers, case by case, for every request and every state: who
 gets in, who is refused and how, and what the tables hold afterwards.
 */
module Answers {
  import opened Accounts
  import opened Database
  import opened EmailAddress
  import opened JWTUtil
  import opened PasswordUtil
  import opened Schema
  import opened UserDAO
  import opened UserHandler
  import opened Wrappers
  import Codes = VerifyService
  import Decimal
  import EmailUtil

  predicate Reached(net: Net) { net.connected && net.first }

  predicate Named(s: Store, id: int, username: string) { id in s.users && s.users[id].username == username }

  lemma NameTakenIs(s: Store, username: string)
    requires StoreInv(s)
    ensures NameTaken(s, username, 0) <==> exists id :: Named(s, id, username)
  {
    if id :| Named(s, id, username) {
      assert id in s.users && id != 0 && s.users[id].username == username;
    }
    if id :| id in s.users && id != 0 && s.users[id].username == username {
      assert Named(s, id, username);
    }
  }

  /** The response shows account `id` as its row has it, NULL as the empty string. */
  predicate Shows(user: UserFields, s: Store, id: int) {
    && id in s.users && user.id == id
    && user.username == s.users[id].username && user.email == s.users[id].email
    && user.qqId == (if s.users[id].qqId.Some? then s.users[id].qqId.value else "")
    && user.neteaseId == (if s.users[id].neteaseId.Some? then s.users[id].neteaseId.value else "")
  }

  // ---------------------------------------------------------------------------------
  // Login
  // ---------------------------------------------------------------------------------

  /** The password is the one last given for the account, as far as the digest can tell. */
  ghost predicate RightPassword(c: Config, w: World, id: int, password: string) {
    LastPassword(w.trace, id).Some? && c.digest(password) == c.digest(LastPassword(w.trace, id).value)
  }

  lemma LoginByName(c: Config, w: World, signer: Signer, body: Body, now: int, net: Net, id: int)
    requires Inv(c, w) && Reached(net) && "username" in body && "password" in body
    requires Named(w.db, id, body["username"])
    ensures var r := Login(c.digest, signer, w.db, body, now, net);
            && (if RightPassword(c, w, id, body["password"]) then r.LoggedIn? else r == AccessDenied)
            && (r.LoggedIn? ==> Shows(r.user, w.db, id) && r.token == LoginToken(signer, body["username"], id,
                                                                                w.db.users[id].email, now))
  {
    LoginToAccount(c, w.db, signer, body, now, net, id);
    VerifyIsDigestEquality(c.digest, body["password"], LastPassword(w.trace, id).value);
  }

  lemma LoginUnknown(c: Config, w: World, signer: Signer, body: Body, now: int, net: Net)
    requires Inv(c, w) && "username" in body && "password" in body
    requires Reached(net) ==> forall id :: !Named(w.db, id, body["username"])
    ensures Login(c.digest, signer, w.db, body, now, net) == NotFound
  {
    NameTakenIs(w.db, body["username"]);
  }

  /** Every login of every body in every reachable state. It succeeds exactly when both
      fields are there, the look-up works, some account has the name and the password is
      the one last given for it; the answer then shows that account and no other. */
  lemma LoginAnswers(c: Config, w: World, signer: Signer, body: Body, now: int, net: Net)
    requires Inv(c, w)
    ensures var r := Login(c.digest, signer, w.db, body, now, net);
            var complete := "username" in body && "password" in body;
            && (r == BadRequest <==> !complete)
            && (r == NotFound <==>
                  complete && (!Reached(net) || forall id :: !Named(w.db, id, body["username"])))
            && (r == AccessDenied <==>
                  complete && Reached(net) && exists id ::
                    Named(w.db, id, body["username"]) && !RightPassword(c, w, id, body["password"]))
            && (r.LoggedIn? <==>
                  complete && Reached(net) && exists id ::
                    Named(w.db, id, body["username"]) && RightPassword(c, w, id, body["password"]))
            && (r.LoggedIn? ==> Shows(r.user, w.db, r.user.id) && r.user.username == body["username"]
                                && AccountOf(r.token) == Some(r.user.id))
  {
    if "username" in body && "password" in body {
      if id :| Reached(net) && Named(w.db, id, body["username"]) {
        LoginByName(c, w, signer, body, now, net, id);
        LoginTokenNamesAccount(signer, body["username"], id, w.db.users[id].email, now);
        forall other | Named(w.db, other, body["username"]) ensures other == id {
        }
      } else {
        LoginUnknown(c, w, signer, body, now, net);
      }
    }
  }

  // ---------------------------------------------------------------------------------
  // Tokens
  // ---------------------------------------------------------------------------------

  /** A token that was not signed by this server over exactly this content, or under another
      algorithm or issuer, opens nothing. */
  lemma ForeignTokenRefused(digest: string -> Digest, signer: Signer, codes: Codes.Codes, s: Store, body: Body,
                            token: Token, t1: int, t2: int, now: int, net: Net)
    requires || token.signature != signer.sign(token.alg, token.typ, token.payload, signer.secret)
             || token.alg != "HS256"
             || "iss" !in token.payload || token.payload["iss"] != Text(signer.issuer)
    ensures GetProfile(signer, s, Some(token), t1, t2, net) == AccessDenied
    ensures var (t, r) := ChangePassword(digest, signer, codes, s, body, Some(token), t1, t2, now, net);
            t == s && (r == AccessDenied || r == BadRequest)
            && (r == BadRequest <==> !("new_password" in body && "verify_code" in body && "email" in body))
  {
  }

  /** No token, or a login token once its expiry second is over, opens nothing. */
  lemma ExpiredTokenRefused(digest: string -> Digest, signer: Signer, codes: Codes.Codes, s: Store, body: Body,
                            token: Option<Token>, username: string, id: int, email: string, issued: int,
                            t1: int, t2: int, now: int, net: Net)
    requires token.None? ||
             (token.value == LoginToken(signer, username, id, email, issued) && t1 <= t2
              && t2 > (issued / 1_000_000_000 + 120 * 24 * 3600) * 1_000_000_000)
    ensures GetProfile(signer, s, token, t1, t2, net) == AccessDenied
    ensures var (t, r) := ChangePassword(digest, signer, codes, s, body, token, t1, t2, now, net);
            t == s && (r == AccessDenied || r == BadRequest)
            && (r == BadRequest <==> !("new_password" in body && "verify_code" in body && "email" in body))
  {
    if token.Some? {
      AcceptanceWindow(signer, username, LoginClaims(id, email), LOGIN_VALID_FOR, issued, t1, t2);
    }
  }

  /** Every profile request: refused without an accepted token, an error for a token that
      names nobody, and otherwise the row of the account the token names. */
  lemma ProfileAnswers(signer: Signer, s: Store, token: Option<Token>, t1: int, t2: int, net: Net)
    ensures var r := GetProfile(signer, s, token, t1, t2, net);
            var accepted := token.Some? && Accepts(signer, token.value, t1, t2);
            && (r == AccessDenied <==> !accepted)
            && (r == ServerError <==>
                  accepted && !("id" in token.value.payload && token.value.payload["id"].Text?))
            && (r.Profile? <==>
                  && accepted && "id" in token.value.payload && token.value.payload["id"].Text?
                  && Reached(net) && Decimal.Atoi(token.value.payload["id"].text) in s.users)
            && (r.Profile? ==> Shows(r.user, s, Decimal.Atoi(token.value.payload["id"].text)))
            && (r.Profile? || r == AccessDenied || r == ServerError || r == NotFound)
  {
  }

  // ---------------------------------------------------------------------------------
  // Codes
  // ---------------------------------------------------------------------------------

  /** The store holds this code for this address and action, and it has not expired. */
  predicate Live(codes: Codes.Codes, email: string, action: string, code: string, now: int) {
    && email in codes && codes[email].code == code && codes[email].action == action
    && now <= codes[email].expireTime
  }

  /** Who is sent a code: a request with a well-formed address and one of the two actions. */
  lemma CodeRequests(body: Body)
    ensures MaySend(body) <==>
              && "email" in body && "action" in body && Matches(EmailPattern(), body["email"])
              && (body["action"] == "register" || body["action"] == "reset_password")
  {
    if "email" in body {
      ScanDecidesPattern(body["email"]);
    }
  }

  // ---------------------------------------------------------------------------------
  // Changing a password
  // ---------------------------------------------------------------------------------

  /** `t` is `s` with another hash for account `id`, if there is such an account. */
  ghost predicate OnlyHash(s: Store, t: Store, id: int, hash: string) {
    && t.users.Keys == s.users.Keys && t.(users := s.users) == s
    && (forall other :: other in s.users && other != id ==> t.users[other] == s.users[other])
    && (id in s.users ==> t.users[id] == UserRow(s.users[id].username, hash, s.users[id].email,
                                                 s.users[id].qqId, s.users[id].neteaseId))
  }

  /** Every request to change a password: which are refused, each with its answer, and that a
      change needs an accepted token, a live code and touches the named account's hash alone. */
  lemma ChangePasswordAnswers(digest: string -> Digest, signer: Signer, codes: Codes.Codes, s: Store, body: Body,
                              token: Option<Token>, t1: int, t2: int, now: int, net: Net)
    ensures var (t, r) := ChangePassword(digest, signer, codes, s, body, token, t1, t2, now, net);
            var complete := "new_password" in body && "verify_code" in body && "email" in body;
            var accepted := token.Some? && Accepts(signer, token.value, t1, t2);
            && (r == AccessDenied <==> complete && !accepted)
            && (r == PasswordChanged <==>
                  && complete && accepted && AccountOf(token.value).Some?
                  && Live(codes, body["email"], "reset_password", body["verify_code"], now) && Reached(net))
            && (r == BadRequest <==>
                  || !complete
                  || (accepted && AccountOf(token.value).Some?
                      && !Live(codes, body["email"], "reset_password", body["verify_code"], now)))
            && (r == PasswordChanged ==>
                  OnlyHash(s, t, AccountOf(token.value).value, HashPassword(digest, body["new_password"])))
            && (r != PasswordChanged ==> t == s && (r == AccessDenied || r == BadRequest || r == ServerError))
  {
    if token.Some? && AccountOf(token.value).Some? && "new_password" in body {
      SetPasswordIsOnlyHash(digest, s, AccountOf(token.value).value, body["new_password"]);
    }
  }

  lemma SetPasswordIsOnlyHash(digest: string -> Digest, s: Store, id: int, password: string)
    ensures OnlyHash(s, After(s, SetPassword(id, HashPassword(digest, password))), id, HashPassword(digest, password))
  {
    VerifyIsDigestEquality(digest, password, password);
  }

  // ---------------------------------------------------------------------------------
  // Registering
  // ---------------------------------------------------------------------------------

  predicate Complete(body: Body) {
    "username" in body && "password" in body && "email" in body && "verify_code" in body
  }

  /** The table takes the new account. */
  ghost predicate Fresh(s: Store, body: Body, skip: nat)
    requires Complete(body)
  {
    && |body["username"]| <= 50 && |body["email"]| <= 50 && s.nextUser + skip <= 2147483647
    && forall id :: id in s.users ==>
         s.users[id].username != body["username"] && s.users[id].email != body["email"]
  }

  /** `t` is `s` with the account of `body` under an id that is new. */
  ghost predicate OneMore(digest: string -> Digest, s: Store, t: Store, body: Body, id: int)
    requires Complete(body)
  {
    && id !in s.users && t.users == s.users[id := UserRow(body["username"], HashPassword(digest, body["password"]),
                                                        body["email"], None, None)]
    && t.playlists == s.playlists && t.songs == s.songs && t.history == s.history
  }

  lemma InsertAnswers(digest: string -> Digest, s: Store, body: Body, skip: nat)
    requires StoreInv(s) && Complete(body)
    ensures var hash := HashPassword(digest, body["password"]);
            var reply := Exec(s, InsertUser(body["username"], hash, body["email"], skip));
            && (reply.Done? <==> Fresh(s, body, skip))
            && (reply.Done? ==> OneMore(digest, s, reply.store, body, reply.lastId))
  {
    RunsExactlyWhen(s, InsertUser(body["username"], HashPassword(digest, body["password"]), body["email"], skip));
    VerifyIsDigestEquality(digest, body["password"], body["password"]);
  }

  /** Every registration: which request is refused, each with its answer, when an account is
      added, and that a success names it. A name that is taken is a conflict when the look-up
      says so and a server error when only the table notices. */
  lemma RegisterAnswers(digest: string -> Digest, codes: Codes.Codes, s: Store, body: Body, now: int, skip: nat,
                        lookup: Net, create: Net)
    requires StoreInv(s)
    ensures var (t, r) := Register(digest, codes, s, body, now, skip, lookup, create);
            if !Complete(body) || !Live(codes, body["email"], "register", body["verify_code"], now)
            then t == s && r == BadRequest
            else if Reached(lookup) && exists id :: Named(s, id, body["username"])
            then t == s && r == Conflict
            else if !Reached(create) || !Fresh(s, body, skip)
            then t == s && r == ServerError
            else exists id :: OneMore(digest, s, t, body, id)
                              && r == if create.second then Registered(id) else ServerError
  {
    if Complete(body) {
      InsertAnswers(digest, s, body, skip);
      NameTakenIs(s, body["username"]);
      var reply := Exec(s, InsertUser(body["username"], HashPassword(digest, body["password"]), body["email"], skip));
      if reply.Done? {
        assert OneMore(digest, s, reply.store, body, reply.lastId);
        var (t, r) := Register(digest, codes, s, body, now, skip, lookup, create);
        if Live(codes, body["email"], "register", body["verify_code"], now) && Reached(create)
           && !(Reached(lookup) && NameTaken(s, body["username"], 0)) {
          assert t == reply.store && r == if create.second then Registered(reply.lastId) else ServerError;
        }
      }
    }
  }

  // ---------------------------------------------------------------------------------
  // From the first mail to the profile
  // ---------------------------------------------------------------------------------

  const CLEAR: Net := Net(true, true, true)

  function CodeRequest(email: string, action: string): Body { map["email" := email, "action" := action] }

  function Registration(username: string, password: string, email: string, code: string): Body {
    map["username" := username, "password" := password, "email" := email, "verify_code" := code]
  }

  function Credentials(username: string, password: string): Body {
    map["username" := username, "password" := password]
  }

  lemma CodeRequestIsServed(email: string)
    requires Matches(EmailPattern(), email)
    ensures MaySend(CodeRequest(email, "register"))
  {
    CodeRequests(CodeRequest(email, "register"));
  }

  /** A new name and address, the code that was mailed, typed in before its expiry: the
      account is registered with what was given. */
  method MailThenRegister(handler: UserHandler, username: string, password: string, email: string, draw: nat -> nat,
                          mail: Codes.Transfer, sent: int, expiry: int, typed: int, skip: nat)
    returns (code: string, answer: Response)
    requires handler.dao.db.Valid() && (forall i: nat :: draw(i) < 10) && mail.performed
    requires Matches(EmailPattern(), email) && typed <= sent + expiry
    requires Fresh(handler.dao.db.tables, Registration(username, password, email, ""), skip)
    modifies handler.service, handler.dao.db
    ensures handler.dao.db.Valid()
    ensures |code| == 6 && forall i :: 0 <= i < 6 ==> code[i] == "0123456789"[draw(i)]
    ensures answer.Registered?
    ensures OneMore(handler.digest, old(handler.dao.db.tables), handler.dao.db.tables,
                    Registration(username, password, email, code), answer.id)
  {
    ghost var before := handler.dao.db.tables;
    CodeRequestIsServed(email);
    var mailed, wire;
    mailed, code, wire := handler.HandleGetVerifyCode(CodeRequest(email, "register"), draw, mail, sent, expiry);
    var body := Registration(username, password, email, code);
    RegisterAnswers(handler.digest, handler.service.codes, before, body, typed, skip, CLEAR, CLEAR);
    answer := handler.HandleRegister(body, typed, skip, CLEAR, CLEAR);
  }

  /** The account just registered can log in with its password, and with no password of
      another digest; its token then shows its own profile for 119 days. */
  method LoginThenProfile(handler: UserHandler, username: string, password: string, given: string, id: int,
                          now: int, t1: int, t2: int)
    returns (login: Response, profile: Response)
    requires handler.dao.db.Valid() && now <= t1 <= t2 <= now + 119 * 24 * 3600 * 1_000_000_000
    requires Named(handler.dao.db.tables, id, username)
    requires handler.dao.db.tables.users[id].passwdHash == HashPassword(handler.digest, password)
    ensures if handler.digest(given) == handler.digest(password)
            then login.LoggedIn? && Shows(login.user, handler.dao.db.tables, id) && profile == Profile(login.user)
            else login == AccessDenied && profile == AccessDenied
  {
    var s := handler.dao.db.tables;
    AccountNamedIs(s, id);
    VerifyIsDigestEquality(handler.digest, given, password);
    login := handler.HandleLogin(Credentials(username, given), now, CLEAR);
    var token := if login.LoggedIn? then Some(login.token) else None;
    profile := handler.HandleGetProfile(token, t1, t2, CLEAR);
    LoginTokenDays(handler.signer, username, id, s.users[id].email, now, t1, t2);
    LoginTokenNamesAccount(handler.signer, username, id, s.users[id].email, now);
  }
}
