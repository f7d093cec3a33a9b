/**
 Tokens of src/utils/JWTUtil.{h,cpp} over an uninterpreted signature. Instants are ticks
 of the system clock; NumericDate claims are whole seconds, so issuing truncates.
 */
module JWTUtil {
  import opened Wrappers
  import Decimal

  const TICKS: int := 1_000_000_000
  const LEEWAY: int := 60
  const REGISTERED: set<string> := {"iss", "sub", "iat", "nbf", "exp"}

  datatype Claim = Text(text: string) | Date(seconds: int)
  type Payload = map<string, Claim>
  datatype Token = Token(alg: string, typ: string, payload: Payload, signature: string)

  /** Secret, issuer and the signing primitive over header and payload. */
  datatype Signer = Signer(secret: string, issuer: string, sign: (string, string, Payload, string) -> string)

  function StandardClaims(signer: Signer, subject: string, validFor: int, now: int): Payload {
    map["iss" := Text(signer.issuer),
        "iat" := Date(now / TICKS),
        "exp" := Date((now + validFor * TICKS) / TICKS),
        "sub" := Text(subject)]
  }

  function TextClaims(claims: map<string, string>): Payload {
    map name | name in claims :: Text(claims[name])
  }

  function Signed(signer: Signer, payload: Payload): Token {
    Token("HS256", "JWT", payload, signer.sign("HS256", "JWT", payload, signer.secret))
  }

  function Issued(signer: Signer, subject: string, claims: map<string, string>, validFor: int, now: int): Token {
    Signed(signer, StandardClaims(signer, subject, validFor, now) + TextClaims(claims))
  }

  /** The builder: registered claims first, then one payload claim per entry. */
  method GenerateToken(signer: Signer, subject: string, claims: map<string, string>, validFor: int, now: int)
    returns (token: Token)
    ensures token == Issued(signer, subject, claims, validFor, now)
  {
    var payload := StandardClaims(signer, subject, validFor, now);
    ghost var registered := payload;
    var rest := claims.Keys;
    while rest != {}
      invariant rest <= claims.Keys
      invariant payload == registered + TextClaims(claims - rest)
      decreases rest
    {
      var name :| name in rest;
      payload := payload[name := Text(claims[name])];
      rest := rest - {name};
    }
    assert claims - {} == claims;
    token := Signed(signer, payload);
  }

  /** A date claim, when present, must be a date; the library allows it the leeway. */
  predicate NotYet(payload: Payload, name: string, t: int) {
    name in payload && !(payload[name].Date? && (payload[name].seconds - LEEWAY) * TICKS <= t)
  }

  predicate TooLate(payload: Payload, t: int) {
    "exp" in payload && !(payload["exp"].Date? && t <= (payload["exp"].seconds + LEEWAY) * TICKS)
  }

  /** isTokenExpired, without leeway; a token without the claim makes it throw. */
  predicate ExpiredOrUnreadable(payload: Payload, t: int) {
    !("exp" in payload && payload["exp"].Date?) || payload["exp"].seconds * TICKS < t
  }

  /** verifyToken: the library reads the clock at `t1`, isTokenExpired reads it again at `t2`. */
  predicate Accepts(signer: Signer, token: Token, t1: int, t2: int) {
    && token.alg == "HS256"
    && token.signature == signer.sign(token.alg, token.typ, token.payload, signer.secret)
    && "iss" in token.payload && token.payload["iss"] == Text(signer.issuer)
    && !TooLate(token.payload, t1)
    && !NotYet(token.payload, "iat", t1)
    && !NotYet(token.payload, "nbf", t1)
    && !ExpiredOrUnreadable(token.payload, t2)
  }

  /** getClaim: None where it throws. */
  function GetClaim(token: Token, name: string): Option<string> {
    if name in token.payload && token.payload[name].Text? then Some(token.payload[name].text) else None
  }

  /** Who is let in, for any token whatever: the second expiry check makes the first one,
      with its leeway, redundant. */
  lemma AcceptedExactly(signer: Signer, token: Token, t1: int, t2: int)
    requires t1 <= t2
    ensures Accepts(signer, token, t1, t2) <==>
              && token.alg == "HS256"
              && token.signature == signer.sign("HS256", token.typ, token.payload, signer.secret)
              && ("iss" in token.payload && token.payload["iss"] == Text(signer.issuer))
              && ("exp" in token.payload && token.payload["exp"].Date?
                  && t2 <= token.payload["exp"].seconds * 1_000_000_000)
              && (forall name :: name in ["iat", "nbf"] && name in token.payload ==>
                    token.payload[name].Date? && (token.payload[name].seconds - 60) * 1_000_000_000 <= t1)
  {
    assert ["iat", "nbf"][0] == "iat" && ["iat", "nbf"][1] == "nbf";
  }

  /** What an issued token says: the five registered claims first, overlaid with the others. */
  lemma IssuedClaims(signer: Signer, subject: string, claims: map<string, string>, validFor: int, now: int)
    requires claims.Keys !! REGISTERED
    ensures var token := Issued(signer, subject, claims, validFor, now);
            && token.alg == "HS256" && token.typ == "JWT"
            && token.signature == signer.sign("HS256", "JWT", token.payload, signer.secret)
            && token.payload.Keys == {"iss", "iat", "exp", "sub"} + claims.Keys
            && token.payload["iss"] == Text(signer.issuer) && token.payload["sub"] == Text(subject)
            && token.payload["iat"] == Date(now / 1_000_000_000)
            && token.payload["exp"] == Date(now / 1_000_000_000 + validFor)
            && forall name :: name in claims ==> token.payload[name] == Text(claims[name])
  {
    assert {"iss", "sub", "exp", "iat"} <= REGISTERED;
    assert (now + validFor * TICKS) / TICKS == now / TICKS + validFor;
  }

  /** An untouched token is accepted from a minute before its issue up to its expiry: the
      leeway does not extend the life of a token, because expiry is checked again without it. */
  lemma AcceptanceWindow(signer: Signer, subject: string, claims: map<string, string>,
                         validFor: int, now: int, t1: int, t2: int)
    requires claims.Keys !! REGISTERED && t1 <= t2
    ensures Accepts(signer, Issued(signer, subject, claims, validFor, now), t1, t2) <==>
              && (now / 1_000_000_000 - 60) * 1_000_000_000 <= t1
              && t2 <= (now / 1_000_000_000 + validFor) * 1_000_000_000
  {
    var payload := StandardClaims(signer, subject, validFor, now) + TextClaims(claims);
    assert forall name :: name in REGISTERED ==> name !in TextClaims(claims);
    assert {"iss", "exp", "iat", "nbf"} <= REGISTERED;
    assert "nbf" !in payload;
    assert (now + validFor * TICKS) / TICKS == now / TICKS + validFor;
  }

  /** In clock terms: alive for the whole requested time except at most its last second,
      and never afterwards. */
  lemma LifetimeOfToken(signer: Signer, subject: string, claims: map<string, string>,
                        validFor: int, now: int, t1: int, t2: int)
    requires claims.Keys !! REGISTERED && now <= t1 <= t2
    ensures var token := Issued(signer, subject, claims, validFor, now);
            && (t2 <= now + (validFor - 1) * TICKS ==> Accepts(signer, token, t1, t2))
            && (t2 > now + validFor * TICKS ==> !Accepts(signer, token, t1, t2))
  {
    AcceptanceWindow(signer, subject, claims, validFor, now, t1, t2);
    assert now / TICKS * TICKS <= now < (now / TICKS + 1) * TICKS;
  }

  // ---------------------------------------------------------------------------------
  // The tokens of the account handlers
  // ---------------------------------------------------------------------------------

  /** 24 * 120 hours. */
  const LOGIN_VALID_FOR: int := 24 * 120 * 3600

  function LoginClaims(id: int, email: string): map<string, string> {
    map["id" := Decimal.ToString(id), "email" := email]
  }

  function LoginToken(signer: Signer, username: string, id: int, email: string, now: int): Token {
    Issued(signer, username, LoginClaims(id, email), LOGIN_VALID_FOR, now)
  }

  /** The account a handler reads out of a token; None where getClaim throws. */
  function AccountOf(token: Token): Option<int> {
    match GetClaim(token, "id")
    case None => None
    case Some(text) => Some(Decimal.Atoi(text))
  }

  /** A login token still serves after 119 days, and no longer after 121. */
  lemma LoginTokenDays(signer: Signer, username: string, id: int, email: string, now: int, t1: int, t2: int)
    requires now <= t1 <= t2
    ensures var token, day := LoginToken(signer, username, id, email, now), 24 * 3600 * 1_000_000_000;
            && (t2 <= now + 119 * day ==> Accepts(signer, token, t1, t2))
            && (t2 >= now + 121 * day ==> !Accepts(signer, token, t1, t2))
            && "email" in token.payload && token.payload["email"] == Text(email)
            && "id" in token.payload && token.payload["id"] == Text(Decimal.ToString(id))
  {
    IssuedClaims(signer, username, LoginClaims(id, email), LOGIN_VALID_FOR, now);
    LifetimeOfToken(signer, username, LoginClaims(id, email), LOGIN_VALID_FOR, now, t1, t2);
  }

  /** Whatever the id, the token names the account it was issued for, and no other. */
  lemma LoginTokenNamesAccount(signer: Signer, username: string, id: int, email: string, now: int)
    ensures AccountOf(LoginToken(signer, username, id, email, now)) == Some(id)
  {
    var claims := LoginClaims(id, email);
    assert "id" in TextClaims(claims);
    Decimal.AtoiOfToString(id);
  }
}
