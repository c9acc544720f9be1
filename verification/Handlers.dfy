/**
 The request handlers from the begin of their transaction to the response: what is committed, what
 is answered, and what is sent to the client or mailed. A handler defers the rollback of its
 transaction, so each is a begin, a body, and the rollback unless the body committed.
 */
module Handlers {
  import opened Wrappers
  import opened Model
  import opened Operations
  import opened Persistence
  import opened Accounts
  import opened TokenEffects
  import TokenHistory
  import RefreshTokenService
  import AuthService
  import UserService

  /** What happens to the client's refresh-token cookie. */
  datatype Cookie = Untouched | Cleared | Set(value: string)

  datatype Response = Response(status: nat, cookie: Cookie)

  /** A redirect to the front end, with an error code if the sign-in failed. */
  datatype Redirect = Redirect(error: Option<string>, cookie: Cookie)

  datatype Mail = Mail(to: string, code: string)

  /**
   All or nothing: the store is the full effect of the request if the transaction committed and
   untouched if not; without a failure from outside it is the full effect.
   */
  ghost predicate Settled(before: Store, after: Store, a: Outcome<Reply>, committed: bool, clean: bool) {
    && (committed ==> clean && a.result.Ok?)
    && after == (if committed then a.store else before)
    && (clean ==> after == a.store)
  }

  /** The cookie is set exactly on commit, to the raw token of the committed bundle. */
  ghost predicate Delivered(cookie: Cookie, a: Outcome<Reply>, committed: bool) {
    && (cookie.Set? <==> committed)
    && (committed ==> a.result.Ok? && a.result.value.Bundle? && cookie == Set(a.result.value.raw))
  }

  /** The raw token is found in the store, unrevoked. */
  ghost predicate IsLiveToken(s: Store, raw: string) {
    Lookup(s, raw).Ok? && Lookup(s, raw).value.1.revokedAt.None?
  }

  lemma BundleIsLive(s: Store, userId: Id, mint: Mint)
    requires GenerateBundle(s, userId, mint).result.Ok?
    ensures var a := GenerateBundle(s, userId, mint);
            a.result.value == Bundle(userId, MintedRaw(mint)) && IsLiveToken(a.store, MintedRaw(mint))
  {
    BundleEffect(s, userId, mint);
    MintedKey(mint);
    LookupOf(GenerateBundle(s, userId, mint).store, MintedRaw(mint), mint.id);
  }

  /** A raw token is only ever answered together with its committed, unrevoked row. */
  lemma AnsweredTokenIsLive(s: Store, op: Op)
    requires Apply(s, op).result.Ok? && Apply(s, op).result.value.Bundle?
    ensures IsLiveToken(Apply(s, op).store, Apply(s, op).result.value.raw)
  {
    match op
    case OpLogin(email, password, mint) =>
      BundleIsLive(s, Admit(s.users, email, password).value, mint);
    case OpCallback(claim, userId, identityId, now, mint) => CallbackIsLive(s, claim, userId, identityId, now, mint);
    case OpRefresh(raw, startedAt, checkedAt, mint) => RefreshedIsLive(s, raw, startedAt, checkedAt, mint);
    case _ =>
  }

  lemma CallbackIsLive(s: Store, claim: Claim, userId: Id, identityId: Id, now: int, mint: Mint)
    requires Operations.Callback(s, claim, userId, identityId, now, mint).result.Ok?
    ensures var a := Operations.Callback(s, claim, userId, identityId, now, mint);
            a.result.value.Bundle? && IsLiveToken(a.store, a.result.value.raw)
  {
    CallbackEffect(s, claim, userId, identityId, now, mint);
    var resolved := Resolve(s, claim, userId, identityId, now);
    BundleIsLive(resolved.store, resolved.result.value, mint);
  }

  lemma RefreshedIsLive(s: Store, raw: string, startedAt: int, checkedAt: int, mint: Mint)
    requires Operations.Refresh(s, raw, startedAt, checkedAt, mint).result.Ok?
    ensures var a := Operations.Refresh(s, raw, startedAt, checkedAt, mint);
            a.result.value.Bundle? && IsLiveToken(a.store, a.result.value.raw)
  {
    RefreshEffect(s, raw, startedAt, checkedAt, mint);
    var (id, row) := Lookup(s, raw).value;
    BundleIsLive(RevokeRow(s, id, startedAt), row.userId, mint);
  }

  /** A refusal changes nothing, and requests that mint answer with a bundle. */
  lemma AnswerOf(s: Store, op: Op)
    ensures var a := Apply(s, op);
            (a.result.Err? ==> a.store == s) && (a.result.Ok? && TokenHistory.Mints(op) ==> a.result.value.Bundle?)
  {
    var a := Apply(s, op);
    if a.result.Err? {
      FailureKeepsStore(s, op);
    } else {
      TokenHistory.AnswerKinds(s, Event(op, a.result));
    }
  }

  /** The answer to a login nothing failed in from outside. */
  function LoginResponse(r: Result<Reply>): Response {
    match r
    case Ok(Bundle(_, raw)) => Response(200, Set(raw))
    case Err(WrongCredentials) => Response(401, Untouched)
    case Err(EmailNotVerified) => Response(403, Untouched)
    case _ => Response(500, Untouched)
  }

  function LogoutResponse(r: Result<Reply>): Response {
    match r
    case Ok(_) => Response(204, Cleared)
    case Err(InvalidToken) => Response(404, Cleared)
    case _ => Response(500, Untouched)
  }

  function RefreshResponse(r: Result<Reply>): Response {
    match r
    case Ok(Bundle(_, raw)) => Response(200, Set(raw))
    case Err(TokenRevoked) => Response(403, Cleared)
    case Err(TokenExpired) => Response(403, Cleared)
    case Err(InvalidToken) => Response(403, Cleared)
    case _ => Response(500, Untouched)
  }

  function RegisterResponse(r: Result<Reply>): Response {
    match r
    case Ok(_) => Response(201, Untouched)
    case Err(EmailExists) => Response(409, Untouched)
    case _ => Response(500, Untouched)
  }

  function VerifyResponse(r: Result<Reply>): Response {
    match r
    case Ok(_) => Response(200, Untouched)
    case Err(InvalidCode) => Response(400, Untouched)
    case _ => Response(500, Untouched)
  }

  function CallbackResponse(resolved: Result<Id>, r: Result<Reply>): Redirect {
    match (resolved, r)
    case (Err(EmailExists), _) => Redirect(Some("email_exists"), Untouched)
    case (Err(_), _) => Redirect(Some("oauth_failed"), Untouched)
    case (Ok(_), Ok(Bundle(_, raw))) => Redirect(None, Set(raw))
    case (Ok(_), _) => Redirect(Some("token_failed"), Untouched)
  }

  /** What a client is told when something failed from outside. */
  const FAILED := Response(500, Untouched)

  // ---------------------------------------------------------------- login

  method LoginBody(tx: Transaction, email: string, password: string, mint: Mint) returns (response: Response)
    requires tx.Open() && tx.view == tx.db.store && UniqueEmails(tx.view.users)
    requires |mint.secret| == RefreshTokenService.SECRET_BYTES
    modifies tx, tx.db
    ensures var a := Operations.Login(old(tx.db.store), email, password, mint);
            && Settled(old(tx.db.store), tx.db.store, a, tx.committed, !tx.faulted)
            && Delivered(response.cookie, a, tx.committed)
            && (response.status == 200 <==> tx.committed)
            && (if !tx.faulted then response == LoginResponse(a.result)
                else response == FAILED || response == Response(401, Untouched))
  {
    AnswerOf(tx.db.store, OpLogin(email, password, mint));
    var bundle := AuthService.Login(tx, email, password, mint);
    if bundle.Err? {
      if bundle.error == WrongCredentials {
        return Response(401, Untouched);
      }
      if bundle.error == EmailNotVerified {
        return Response(403, Untouched);
      }
      return Response(500, Untouched);
    }
    var done := tx.Commit();
    if done.Err? {
      return Response(500, Untouched);
    }
    return Response(200, Set(bundle.value.raw));
  }

  method Login(db: Database, email: string, password: string, startedAt: int, mint: Mint)
    returns (response: Response, ghost committed: bool, ghost clean: bool)
    requires UniqueEmails(db.store.users) && |mint.secret| == RefreshTokenService.SECRET_BYTES
    modifies db
    ensures var a := Operations.Login(old(db.store), email, password, mint);
            && Settled(old(db.store), db.store, a, committed, clean)
            && Delivered(response.cookie, a, committed)
            && (response.status == 200 <==> committed)
            && (if clean then response == LoginResponse(a.result)
                else response == FAILED || response == Response(401, Untouched))
    ensures response.cookie.Set? ==> IsLiveToken(db.store, response.cookie.value)
  {
    var begun := db.BeginContext(startedAt);
    if begun.Err? {
      return Response(500, Untouched), false, false;
    }
    var tx := begun.value;
    response := LoginBody(tx, email, password, mint);
    var _ := db.RollbackUnlessCommitted(tx);
    committed, clean := tx.committed, !tx.faulted;
    if committed {
      AnsweredTokenIsLive(old(db.store), OpLogin(email, password, mint));
    }
  }

  // ---------------------------------------------------------------- logout

  method LogoutBody(tx: Transaction, raw: string) returns (response: Response)
    requires tx.Open() && tx.view == tx.db.store
    modifies tx, tx.db
    ensures var a := Revoke(old(tx.db.store), raw, tx.startedAt);
            && Settled(old(tx.db.store), tx.db.store, a, tx.committed, !tx.faulted)
            && (response.status == 204 <==> tx.committed)
            && response == if !tx.faulted then LogoutResponse(a.result) else FAILED
  {
    AnswerOf(tx.db.store, OpLogout(raw, tx.startedAt));
    var revoked := RefreshTokenService.RevokeRaw(tx, raw);
    if revoked.Err? {
      if revoked.error == InvalidToken {
        return Response(404, Cleared);
      }
      return Response(500, Untouched);
    }
    var done := tx.Commit();
    if done.Err? {
      return Response(500, Untouched);
    }
    return Response(204, Cleared);
  }

  /** Without a cookie there is nothing to do and the answer is the same as on success. */
  method Logout(db: Database, cookie: Option<string>, startedAt: int)
    returns (response: Response, ghost committed: bool, ghost clean: bool)
    modifies db
    ensures cookie.None? ==> db.store == old(db.store) && response == Response(204, Cleared) && !committed && clean
    ensures cookie.Some? ==>
              var a := Revoke(old(db.store), cookie.value, startedAt);
              && Settled(old(db.store), db.store, a, committed, clean)
              && (response.status == 204 <==> committed)
              && response == if clean then LogoutResponse(a.result) else FAILED
  {
    if cookie.None? {
      return Response(204, Cleared), false, true;
    }
    var begun := db.BeginContext(startedAt);
    if begun.Err? {
      return Response(500, Untouched), false, false;
    }
    var tx := begun.value;
    response := LogoutBody(tx, cookie.value);
    var _ := db.RollbackUnlessCommitted(tx);
    committed, clean := tx.committed, !tx.faulted;
  }

  // ---------------------------------------------------------------- refresh

  predicate RefusesToken(e: Error) {
    e.TokenRevoked? || e.TokenExpired? || e.InvalidToken?
  }

  method RefreshBody(tx: Transaction, raw: string, checkedAt: int, mint: Mint) returns (response: Response)
    requires tx.Open() && tx.view == tx.db.store && |mint.secret| == RefreshTokenService.SECRET_BYTES
    modifies tx, tx.db
    ensures var a := Operations.Refresh(old(tx.db.store), raw, tx.startedAt, checkedAt, mint);
            && Settled(old(tx.db.store), tx.db.store, a, tx.committed, !tx.faulted)
            && Delivered(response.cookie, a, tx.committed)
            && (response.status == 200 <==> tx.committed)
            && response == if !tx.faulted then RefreshResponse(a.result) else FAILED
  {
    AnswerOf(tx.db.store, OpRefresh(raw, tx.startedAt, checkedAt, mint));
    var bundle := AuthService.Refresh(tx, raw, checkedAt, mint);
    if bundle.Err? {
      if RefusesToken(bundle.error) {
        return Response(403, Cleared);
      }
      return Response(500, Untouched);
    }
    var done := tx.Commit();
    if done.Err? {
      return Response(500, Untouched);
    }
    return Response(200, Set(bundle.value.raw));
  }

  /** With the cookie's value at hand. */
  method RefreshWith(db: Database, raw: string, startedAt: int, checkedAt: int, mint: Mint)
    returns (response: Response, ghost committed: bool, ghost clean: bool)
    requires |mint.secret| == RefreshTokenService.SECRET_BYTES
    modifies db
    ensures var a := Operations.Refresh(old(db.store), raw, startedAt, checkedAt, mint);
            && Settled(old(db.store), db.store, a, committed, clean)
            && Delivered(response.cookie, a, committed)
            && (response.status == 200 <==> committed)
            && response == if clean then RefreshResponse(a.result) else FAILED
    ensures response.cookie.Set? ==> IsLiveToken(db.store, response.cookie.value)
  {
    var begun := db.BeginContext(startedAt);
    if begun.Err? {
      return Response(500, Untouched), false, false;
    }
    var tx := begun.value;
    response := RefreshBody(tx, raw, checkedAt, mint);
    var _ := db.RollbackUnlessCommitted(tx);
    committed, clean := tx.committed, !tx.faulted;
    if committed {
      RefreshedIsLive(old(db.store), raw, startedAt, checkedAt, mint);
    }
  }

  method Refresh(db: Database, cookie: Option<string>, startedAt: int, checkedAt: int, mint: Mint)
    returns (response: Response, ghost committed: bool, ghost clean: bool)
    requires |mint.secret| == RefreshTokenService.SECRET_BYTES
    modifies db
    ensures cookie.None? <==> response.status == 401
    ensures cookie.None? ==> db.store == old(db.store) && response.cookie == Untouched && !committed && clean
    ensures cookie.Some? ==>
              var a := Operations.Refresh(old(db.store), cookie.value, startedAt, checkedAt, mint);
              && Settled(old(db.store), db.store, a, committed, clean)
              && Delivered(response.cookie, a, committed)
              && (response.status == 200 <==> committed)
              && response == if clean then RefreshResponse(a.result) else FAILED
    ensures response.cookie.Set? ==> IsLiveToken(db.store, response.cookie.value)
  {
    if cookie.None? {
      return Response(401, Untouched), false, true;
    }
    response, committed, clean := RefreshWith(db, cookie.value, startedAt, checkedAt, mint);
  }

  // ---------------------------------------------------------------- callback

  /** The redirect names the stage at which something failed from outside. */
  predicate Fails(r: Redirect) {
    r.cookie == Untouched && r.error in {Some("oauth_failed"), Some("token_failed"), Some("server_error")}
  }

  method CallbackBody(tx: Transaction, claim: Claim, userId: Id, identityId: Id, now: int, mint: Mint)
    returns (response: Redirect)
    requires tx.Open() && tx.view == tx.db.store && UserService.Unambiguous(tx.view)
    requires |mint.secret| == RefreshTokenService.SECRET_BYTES
    modifies tx, tx.db
    ensures var a := Operations.Callback(old(tx.db.store), claim, userId, identityId, now, mint);
            && Settled(old(tx.db.store), tx.db.store, a, tx.committed, !tx.faulted)
            && Delivered(response.cookie, a, tx.committed)
            && (response.error.None? <==> tx.committed)
            && var resolved := Resolve(old(tx.db.store), claim, userId, identityId, now).result;
            (if !tx.faulted then response == CallbackResponse(resolved, a.result) else Fails(response))
  {
    AnswerOf(tx.db.store, OpCallback(claim, userId, identityId, now, mint));
    var resolved := UserService.FindOrCreateByOAuthIdentity(tx, claim, userId, identityId, now);
    if resolved.Err? {
      if resolved.error == EmailExists {
        return Redirect(Some("email_exists"), Untouched);
      }
      return Redirect(Some("oauth_failed"), Untouched);
    }
    var bundle := AuthService.GenerateBundle(tx, resolved.value, mint);
    if bundle.Err? {
      return Redirect(Some("token_failed"), Untouched);
    }
    var done := tx.Commit();
    if done.Err? {
      return Redirect(Some("server_error"), Untouched);
    }
    return Redirect(None, Set(bundle.value.raw));
  }

  method Callback(db: Database, claim: Claim, userId: Id, identityId: Id, now: int, mint: Mint)
    returns (response: Redirect, ghost committed: bool, ghost clean: bool)
    requires UserService.Unambiguous(db.store) && |mint.secret| == RefreshTokenService.SECRET_BYTES
    modifies db
    ensures var a := Operations.Callback(old(db.store), claim, userId, identityId, now, mint);
            && Settled(old(db.store), db.store, a, committed, clean)
            && Delivered(response.cookie, a, committed)
            && (response.error.None? <==> committed)
            && var resolved := Resolve(old(db.store), claim, userId, identityId, now).result;
            (if clean then response == CallbackResponse(resolved, a.result) else Fails(response))
    ensures response.cookie.Set? ==> IsLiveToken(db.store, response.cookie.value)
  {
    var begun := db.BeginContext(now);
    if begun.Err? {
      return Redirect(Some("server_error"), Untouched), false, false;
    }
    var tx := begun.value;
    response := CallbackBody(tx, claim, userId, identityId, now, mint);
    var _ := db.RollbackUnlessCommitted(tx);
    committed, clean := tx.committed, !tx.faulted;
    if committed {
      CallbackIsLive(old(db.store), claim, userId, identityId, now, mint);
    }
  }

  // ---------------------------------------------------------------- register

  /** The mail is sent after the commit, so a mailed code is the code of a committed row. */
  ghost predicate Mailed(mail: Option<Mail>, s: Store, codeId: Id, to: string, code: string, committed: bool) {
    && mail == (if committed then Some(Mail(to, code)) else None)
    && (committed ==> HasHash(s.codes, codeId, Sha256(code)) && s.codes[codeId].userId in s.users
                      && s.users[s.codes[codeId].userId].email == to)
  }

  method RegisterBody(tx: Transaction, name: string, email: string, password: string,
                      userId: Id, codeId: Id, code: string, now: int)
    returns (response: Response, mail: Option<Mail>)
    requires tx.Open() && tx.view == tx.db.store
    modifies tx, tx.db
    ensures var a := Operations.Register(old(tx.db.store), name, email, password, userId, codeId, code, now);
            && Settled(old(tx.db.store), tx.db.store, a, tx.committed, !tx.faulted)
            && Mailed(mail, tx.db.store, codeId, email, code, tx.committed)
            && (response.status == 201 <==> tx.committed)
            && response == if !tx.faulted then RegisterResponse(a.result) else FAILED
  {
    AnswerOf(tx.db.store, OpRegister(name, email, password, userId, codeId, code, now));
    var registered := UserService.Create(tx, userId, name, email, false, Some(password), now);
    if registered.Err? {
      if registered.error == EmailExists {
        return Response(409, Untouched), None;
      }
      return Response(500, Untouched), None;
    }
    var generated := tx.Attempt();
    if !generated {
      return Response(500, Untouched), None;
    }
    var coded := UserService.CreateToken(tx, codeId, code, registered.value, now);
    if coded.Err? {
      return Response(500, Untouched), None;
    }
    var done := tx.Commit();
    if done.Err? {
      return Response(500, Untouched), None;
    }
    return Response(201, Untouched), Some(Mail(email, code));
  }

  method Register(db: Database, name: string, email: string, password: string,
                  userId: Id, codeId: Id, code: string, now: int)
    returns (response: Response, mail: Option<Mail>, ghost committed: bool, ghost clean: bool)
    modifies db
    ensures var a := Operations.Register(old(db.store), name, email, password, userId, codeId, code, now);
            && Settled(old(db.store), db.store, a, committed, clean)
            && Mailed(mail, db.store, codeId, email, code, committed)
            && (response.status == 201 <==> committed)
            && response == if clean then RegisterResponse(a.result) else FAILED
  {
    var begun := db.BeginContext(now);
    if begun.Err? {
      return Response(500, Untouched), None, false, false;
    }
    var tx := begun.value;
    response, mail := RegisterBody(tx, name, email, password, userId, codeId, code, now);
    var _ := db.RollbackUnlessCommitted(tx);
    committed, clean := tx.committed, !tx.faulted;
  }

  // ---------------------------------------------------------------- verify

  method VerifyBody(tx: Transaction, code: string, now: int) returns (response: Response)
    requires tx.Open() && tx.view == tx.db.store && UserService.Unambiguous(tx.view)
    modifies tx, tx.db
    ensures var a := Operations.Verify(old(tx.db.store), code, now);
            && Settled(old(tx.db.store), tx.db.store, a, tx.committed, !tx.faulted)
            && (response.status == 200 <==> tx.committed)
            && (if !tx.faulted then response == VerifyResponse(a.result)
                else response == FAILED || response == Response(400, Untouched))
  {
    AnswerOf(tx.db.store, OpVerify(code, now));
    var verified := UserService.VerifyUser(tx, code, now);
    if verified.Err? {
      if verified.error == InvalidCode {
        return Response(400, Untouched);
      }
      return Response(500, Untouched);
    }
    var done := tx.Commit();
    if done.Err? {
      return Response(500, Untouched);
    }
    return Response(200, Untouched);
  }

  method Verify(db: Database, code: string, now: int)
    returns (response: Response, ghost committed: bool, ghost clean: bool)
    requires UserService.Unambiguous(db.store)
    modifies db
    ensures var a := Operations.Verify(old(db.store), code, now);
            && Settled(old(db.store), db.store, a, committed, clean)
            && (response.status == 200 <==> committed)
            && (if clean then response == VerifyResponse(a.result)
                else response == FAILED || response == Response(400, Untouched))
  {
    var begun := db.BeginContext(now);
    if begun.Err? {
      return Response(500, Untouched), false, false;
    }
    var tx := begun.value;
    response := VerifyBody(tx, code, now);
    var _ := db.RollbackUnlessCommitted(tx);
    committed, clean := tx.committed, !tx.faulted;
  }

  // ---------------------------------------------------------------- resend

  /** What the spawned job of `Resend` does: an unknown or verified address is no error and no commit. */
  method ResendBody(tx: Transaction, email: string, codeId: Id, code: string, now: int)
    returns (r: Result<()>, mail: Option<Mail>)
    requires tx.Open() && tx.view == tx.db.store && UniqueEmails(tx.view.users)
    modifies tx, tx.db
    ensures var a := Operations.Resend(old(tx.db.store), email, codeId, code, now);
            && Settled(old(tx.db.store), tx.db.store, a, tx.committed, !tx.faulted)
            && Mailed(mail, tx.db.store, codeId, email, code, tx.committed)
            && (!tx.faulted ==> (tx.committed <==> a.result.Ok? && a.result.value.Sent?))
            && (!tx.committed ==> (r.Ok? <==> !tx.faulted && a.result.Ok?))
  {
    AnswerOf(tx.db.store, OpResend(email, codeId, code, now));
    var user := UserService.GetByEmail(tx, email);
    if user.Err? {
      if user.error == UserNotFound {
        return Ok(()), None;
      }
      return Err(user.error), None;
    }
    if user.value.1.emailVerified {
      return Ok(()), None;
    }
    FoundByEmail(tx.view.users, email);
    var deleted := UserService.DeleteByUserId(tx, user.value.0);
    if deleted.Err? {
      return Err(deleted.error), None;
    }
    var generated := tx.Attempt();
    if !generated {
      return Err(Fault), None;
    }
    var coded := UserService.CreateToken(tx, codeId, code, user.value.0, now);
    if coded.Err? {
      return Err(coded.error), None;
    }
    var done := tx.Commit();
    if done.Err? {
      return Err(done.error), None;
    }
    var mailFails: bool := *;
    return if mailFails then Err(Fault) else Ok(()), Some(Mail(email, code));
  }

  method HandleResend(db: Database, email: string, codeId: Id, code: string, now: int)
    returns (r: Result<()>, mail: Option<Mail>, ghost committed: bool, ghost clean: bool)
    requires UniqueEmails(db.store.users)
    modifies db
    ensures var a := Operations.Resend(old(db.store), email, codeId, code, now);
            && Settled(old(db.store), db.store, a, committed, clean)
            && Mailed(mail, db.store, codeId, email, code, committed)
            && (clean ==> (committed <==> a.result.Ok? && a.result.value.Sent?))
            && (!committed ==> (r.Ok? <==> clean && a.result.Ok?))
  {
    var begun := db.BeginContext(now);
    if begun.Err? {
      return Err(Fault), None, false, false;
    }
    var tx := begun.value;
    r, mail := ResendBody(tx, email, codeId, code, now);
    var _ := db.RollbackUnlessCommitted(tx);
    committed, clean := tx.committed, !tx.faulted;
  }
}
