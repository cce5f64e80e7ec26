/**
 * The login router: `POST /connexion` issues a session token and stores it
 * on the account, `GET /verify-token` accepts only the stored, unexpired
 * token, `POST /refresh-token` replaces the stored token by a new one.
 * Tokens follow section 4.1 of RFC 7519; `jwt.verify` is called without an
 * issuer or audience option, so only the signature and `exp` are checked.
 */
module Connexion {
  import opened Common
  import opened Accounts

  const Issuer := "study-abroad-platform"
  const Audience := "study-abroad-users"
  /** `expiresIn: "7d"` */
  const TokenLifetimeSeconds := 7 * 24 * 60 * 60
  /** `tokenExpiry.setDate(getDate() + 7)`, in milliseconds. */
  const TokenExpiryMillis := 7 * 24 * 60 * 60 * 1000

  /** `jwt.sign({userId, email, role}, secret, {expiresIn: "7d", issuer, audience})` at clock `now` (milliseconds). */
  function Sign(a: Account, now: nat): (t: TokenText)
    ensures t.Jwt? && t.serverSigned
    ensures t.claims.userId == a.id && t.claims.email == a.email && t.claims.role == a.role
    ensures t.claims.issuer == Issuer && t.claims.audience == Audience
    ensures t.claims.expiresAt - t.claims.issuedAt == TokenLifetimeSeconds
  {
    Jwt(Claims(a.id, a.email, a.role, now / 1000, now / 1000 + TokenLifetimeSeconds, Issuer, Audience), true)
  }

  /** What `jwt.verify` returns or throws. */
  datatype Verified = Decoded(claims: Claims) | JsonWebTokenError | TokenExpiredError

  /**
   * `jwt.verify(token, secret, {ignoreExpiration})`: a malformed text or a
   * foreign signature throws `JsonWebTokenError`; a token whose `exp` is not
   * after the current second throws `TokenExpiredError` (section 4.1.4 of
   * RFC 7519) unless expiration is ignored.
   */
  function JwtVerify(t: TokenText, now: nat, ignoreExpiration: bool): (v: Verified)
    ensures v.Decoded? <==> t.Jwt? && t.serverSigned && (ignoreExpiration || now / 1000 < t.claims.expiresAt)
    ensures v.Decoded? ==> v.claims == t.claims
    ensures v.TokenExpiredError? ==> !ignoreExpiration
  {
    match t
    case Raw(_) => JsonWebTokenError
    case Jwt(c, signed) =>
      if !signed then JsonWebTokenError
      else if !ignoreExpiration && now / 1000 >= c.expiresAt then TokenExpiredError
      else Decoded(c)
  }

  /**
   * The `Authorization` header: absent, `"Bearer "` followed by a token
   * text, or a token text without the prefix. Token texts hold no space.
   */
  datatype AuthHeader = NoHeader | Bearer(token: TokenText) | Bare(token: TokenText)

  /** `req.headers.authorization?.replace("Bearer ", "")`, `None` when that is falsy. */
  function PresentedToken(h: AuthHeader): (r: Option<TokenText>)
    ensures r.Some? ==> r.value != Cleared && (h.Bearer? || h.Bare?) && r.value == h.token
    ensures h != NoHeader && h.token != Cleared ==> r.Some?
  {
    match h
    case NoHeader => None
    case Bearer(t) => if t == Cleared then None else Some(t)
    case Bare(t) => if t == Cleared then None else Some(t)
  }

  /** The token is signed by the server, unexpired, and is the one stored on its account. */
  predicate Accepted(rows: map<int, Account>, t: TokenText, now: nat)
  {
    t.Jwt? && t.serverSigned && now / 1000 < t.claims.expiresAt
    && t.claims.userId in rows && rows[t.claims.userId].token == t
  }

  // ---------------------------------------------------------------------
  // GET /verify-token
  // ---------------------------------------------------------------------

  datatype VerifyReply =
    | TokenMissing          // 401 "Token manquant"
    | TokenInvalid          // 401 "Token invalide"
    | TokenExpired          // 401 "Token expiré"
    | UserNotFound          // 401 "Utilisateur introuvable"
    | TokenValid(id: int, email: string, role: Role)

  function VerifyStatus(r: VerifyReply): int
  {
    if r.TokenValid? then 200 else 401
  }

  /** `GET /verify-token`: reads the account, writes nothing. */
  function VerifyToken(rows: map<int, Account>, header: AuthHeader, now: nat): (r: VerifyReply)
    ensures r.TokenValid? <==> PresentedToken(header).Some? && Accepted(rows, PresentedToken(header).value, now)
    ensures r.TokenValid? ==> var t := PresentedToken(header).value;
      r.id == t.claims.userId && r.email == rows[r.id].email && r.role == rows[r.id].role
    ensures r == TokenMissing <==> PresentedToken(header).None?
    ensures r == TokenExpired <==>
      (PresentedToken(header).Some? &&
       var t := PresentedToken(header).value; t.Jwt? && t.serverSigned && now / 1000 >= t.claims.expiresAt)
    ensures r == UserNotFound <==>
      (PresentedToken(header).Some? &&
       var t := PresentedToken(header).value;
       t.Jwt? && t.serverSigned && now / 1000 < t.claims.expiresAt && t.claims.userId !in rows)
    ensures r == TokenInvalid <==>
      (PresentedToken(header).Some? &&
       var t := PresentedToken(header).value;
       || !(t.Jwt? && t.serverSigned)
       || (now / 1000 < t.claims.expiresAt && t.claims.userId in rows && rows[t.claims.userId].token != t))
  {
    match PresentedToken(header)
    case None => TokenMissing
    case Some(t) =>
      match JwtVerify(t, now, false)
      case JsonWebTokenError => TokenInvalid
      case TokenExpiredError => TokenExpired
      case Decoded(c) =>
        if c.userId !in rows then UserNotFound
        else if rows[c.userId].token != t then TokenInvalid
        else TokenValid(c.userId, rows[c.userId].email, rows[c.userId].role)
  }

  /** At most one token per account is accepted at any time: the stored one. */
  lemma OneAcceptedTokenPerAccount(rows: map<int, Account>, t1: TokenText, t2: TokenText, now: nat)
    requires Accepted(rows, t1, now) && Accepted(rows, t2, now)
    requires t1.claims.userId == t2.claims.userId
    ensures t1 == t2
  {
  }

  /** Once the stored token is cleared (logout, inactivity), no token of that account is accepted. */
  lemma ClearedAcceptsNothing(rows: map<int, Account>, id: int, t: TokenText, now: nat)
    requires id in rows && rows[id].token == Cleared
    requires t.Jwt? && t.claims.userId == id
    ensures !Accepted(rows, t, now)
  {
  }

  /**
   * Storing a new token for an account rejects every other token of that
   * account from then on, at any time.
   */
  lemma {:induction false} StoredTokenReplaces(rows: map<int, Account>, id: int, next: TokenText, prev: TokenText, now: nat)
    requires id in rows && prev != next && prev.Jwt? && prev.claims.userId == id
    ensures !Accepted(rows[id := rows[id].(token := next)], prev, now)
  {
    assert rows[id := rows[id].(token := next)][id].token == next;
  }

  /** A just-issued token is accepted once stored on its account. */
  lemma {:induction false} IssuedTokenAccepted(rows: map<int, Account>, id: int, now: nat)
    requires id in rows && rows[id].id == id
    ensures var t := Sign(rows[id], now);
      Accepted(rows[id := rows[id].(token := t)], t, now)
  {
    var t := Sign(rows[id], now);
    assert now / 1000 < t.claims.expiresAt;
  }

  /**
   * `jwt.sign` stamps `iat` in whole seconds: signing again for the same
   * account within the same second gives the very same token, and only
   * then; so a refresh rotates the token exactly when the second changed.
   */
  lemma SameSecondSameToken(a: Account, t1: nat, t2: nat)
    ensures Sign(a, t1) == Sign(a, t2) <==> t1 / 1000 == t2 / 1000
  {
  }

  // ---------------------------------------------------------------------
  // POST /connexion
  // ---------------------------------------------------------------------

  datatype LoginReply =
    | LoginMissingFields      // 400
    | LoginUnknownEmail       // 404
    | LoginInactive           // 403
    | LoginWrongPassword      // 401
    | LoginServerError        // 500
    | LoginOk(user: PublicAccount, token: TokenText, tokenExpiry: int)

  function LoginStatus(r: LoginReply): int
  {
    match r
    case LoginMissingFields => 400
    case LoginUnknownEmail => 404
    case LoginInactive => 403
    case LoginWrongPassword => 401
    case LoginServerError => 500
    case LoginOk(_, _, _) => 200
  }

  /**
   * `POST /connexion` at clock `now`. `sess` is `req.session` (null when the
   * session middleware did not run); `updateFails` is the token `UPDATE`
   * throwing. The session's `userId` is assigned before the token is
   * written, and `lastActivity` is left as it was.
   */
  method Login(store: UserStore, sess: Session?, email: Option<string>, motdepasse: Option<string>, now: nat, updateFails: bool)
    returns (r: LoginReply)
    requires store.Valid()
    modifies store, sess
    ensures store.Valid() && store.nextId == old(store.nextId)
    ensures !Filled(email) || !Filled(motdepasse) ==>
      r == LoginMissingFields && store.rows == old(store.rows) && (sess != null ==> unchanged(sess))
    ensures Filled(email) && Filled(motdepasse) ==>
      var found := AccountWithEmail(old(store.rows), email.value);
      && (found.None? ==> r == LoginUnknownEmail && store.rows == old(store.rows) && (sess != null ==> unchanged(sess)))
      && (found.Some? ==>
            var id := found.value;
            var a := old(store.rows)[id];
            var t := Sign(a, now);
            && (!a.estActif ==> r == LoginInactive && store.rows == old(store.rows) && (sess != null ==> unchanged(sess)))
            && (a.estActif && !PasswordMatches(motdepasse.value, a.password) ==>
                  r == LoginWrongPassword && store.rows == old(store.rows) && (sess != null ==> unchanged(sess)))
            && (a.estActif && PasswordMatches(motdepasse.value, a.password) ==>
                  && (sess == null ==> r == LoginServerError && store.rows == old(store.rows))
                  && (sess != null ==>
                        && sess.userId == Some(id)
                        && sess.lastActivity == old(sess.lastActivity) && sess.destroyed == old(sess.destroyed)
                        && (updateFails ==> r == LoginServerError && store.rows == old(store.rows))
                        && (!updateFails ==>
                              && store.rows == old(store.rows)[id := a.(token := t)]
                              && r == LoginOk(WithoutPassword(a).(token := t), t, now + TokenExpiryMillis))))
          )
  {
    if !Filled(email) || !Filled(motdepasse) {
      return LoginMissingFields;
    }
    var found := AccountWithEmail(store.rows, email.value);
    if found.None? {
      return LoginUnknownEmail;
    }
    var id := found.value;
    var a := store.rows[id];
    if !a.estActif {
      return LoginInactive;
    }
    if !PasswordMatches(motdepasse.value, a.password) {
      return LoginWrongPassword;
    }
    var t := Sign(a, now);
    var tokenExpiry := now + TokenExpiryMillis;
    if sess == null {
      return LoginServerError;
    }
    sess.userId := Some(id);
    if updateFails {
      return LoginServerError;
    }
    store.Put(id, a.(token := t));
    r := LoginOk(WithoutPassword(a).(token := t), t, tokenExpiry);
  }

  // ---------------------------------------------------------------------
  // POST /refresh-token
  // ---------------------------------------------------------------------

  datatype RefreshReply =
    | RefreshTokenMissing     // 401 "Token manquant"
    | RefreshTokenInvalid     // 401 "Token invalide"
    | RefreshServerError      // 500: a foreign or malformed token is not told apart here
    | Refreshed(token: TokenText, tokenExpiry: int, user: PublicAccount)

  function RefreshStatus(r: RefreshReply): int
  {
    match r
    case RefreshTokenMissing => 401
    case RefreshTokenInvalid => 401
    case RefreshServerError => 500
    case Refreshed(_, _, _) => 200
  }

  /**
   * `POST /refresh-token`: the presented token must be server-signed (its
   * expiry is ignored) and still be the one stored on its account; it is
   * then replaced by a token signed at `now`.
   */
  method RefreshToken(store: UserStore, header: AuthHeader, now: nat) returns (r: RefreshReply)
    requires store.Valid()
    modifies store
    ensures store.Valid() && store.nextId == old(store.nextId)
    ensures PresentedToken(header).None? ==> r == RefreshTokenMissing && store.rows == old(store.rows)
    ensures PresentedToken(header).Some? ==>
      var p := PresentedToken(header).value;
      && (!(p.Jwt? && p.serverSigned) ==> r == RefreshServerError && store.rows == old(store.rows))
      && (p.Jwt? && p.serverSigned ==>
            var id := p.claims.userId;
            && (id !in old(store.rows) || old(store.rows)[id].token != p ==>
                  r == RefreshTokenInvalid && store.rows == old(store.rows))
            && (id in old(store.rows) && old(store.rows)[id].token == p ==>
                  var a := old(store.rows)[id];
                  var t := Sign(a, now);
                  && store.rows == old(store.rows)[id := a.(token := t)]
                  && r == Refreshed(t, now + TokenExpiryMillis, WithoutPassword(a).(token := t))))
  {
    var p := PresentedToken(header);
    if p.None? {
      return RefreshTokenMissing;
    }
    var v := JwtVerify(p.value, now, true);
    if !v.Decoded? {
      return RefreshServerError;
    }
    var id := v.claims.userId;
    if id !in store.rows || store.rows[id].token != p.value {
      return RefreshTokenInvalid;
    }
    var a := store.rows[id];
    var t := Sign(a, now);
    store.Put(id, a.(token := t));
    r := Refreshed(t, now + TokenExpiryMillis, WithoutPassword(a).(token := t));
  }
}
