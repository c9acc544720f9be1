/**
 The running service: the handlers behind its routes, and the history of the requests that were
 served without a failure from outside. The history always explains the database, so what the
 history modules say about codes, logins, identities, chains and redemptions is true of the
 database after any sequence of requests to the handlers.
 */
module Server {
  import opened Wrappers
  import opened Uuids
  import opened RawTokens
  import opened Model
  import opened Operations
  import opened Persistence
  import opened Accounts
  import opened AccountHistory
  import opened Handlers
  import opened TokenHistory
  import opened CodeHistory
  import RefreshTokenService
  import UserService

  /** The history goes on with the request and its answer, or not at all. */
  ghost predicate Serves(before: seq<Event>, op: Op, after: seq<Event>) {
    after == before || after == before + [Event(op, Apply(After(EMPTY, before), op).result)]
  }

  /** The history goes on with the request, which succeeded. */
  ghost predicate Served(before: seq<Event>, op: Op, after: seq<Event>) {
    Apply(After(EMPTY, before), op).result.Ok? && after == before + [Event(op, Apply(After(EMPTY, before), op).result)]
  }

  lemma ServedPrefix(before: seq<Event>, op: Op, after: seq<Event>)
    requires Served(before, op, after)
    ensures |after| == |before| + 1 && after[..|before|] == before && after[|before|].op == op
            && after[|before|].result.Ok?
  {
  }

  /** Whose code an accepted verification presented. */
  lemma AcceptedUser(log: seq<Event>, n: nat) returns (u: Id)
    requires History(log) && n < |log| && log[n].op.OpVerify? && log[n].result.Ok?
    ensures u in LastCode(log[..n]) && LastCode(log[..n])[u] == log[n].op.code && u !in VerifiedBy(log[..n])
    ensures log[n].result == Ok(Account(u))
  {
    VerifySucceedsIff(log, n, if log[n].result.value.Account? then log[n].result.value.userId else NIL);
    u := log[n].result.value.userId;
  }

  lemma ServesNext(before: seq<Event>, op: Op, after: seq<Event>)
    requires Serves(before, op, after) && after != before
    ensures |after| == |before| + 1 && after[..|before|] == before
    ensures after[|before|] == Event(op, Apply(After(EMPTY, before), op).result)
  {
  }

  /** A token id that is unused was never handed out. */
  lemma IsNewToken(log: seq<Event>, id: Id)
    requires History(log) && Unused(After(EMPTY, log), id)
    ensures !IdMinted(Minted(log), id)
  {
    HistoryIsFaithful(log);
    IdsAgree(log, id);
  }

  class Service {
    const db: Database
    ghost var log: seq<Event>

    ghost predicate Valid()
      reads this, db
    {
      History(log) && db.store == After(EMPTY, log)
    }

    constructor ()
      ensures Valid() && log == [] && fresh(db)
    {
      db := new Database();
      log := [];
    }

    /** Generated ids and codes are new. */
    ghost predicate Generates(op: Op)
      reads this, db
    {
      FreshFor(db.store, Issued(log), op)
    }

    lemma Queries()
      requires Valid()
      ensures UserService.Unambiguous(db.store)
    {
      InvOverHistory(log);
      UserService.InvIsUnambiguous(db.store, Issued(log));
    }

    /** A request that was settled is one more event, or nothing if it failed from outside. */
    ghost method Record(op: Op, before: Store, committed: bool, clean: bool)
      requires History(log) && before == After(EMPTY, log) && FreshFor(before, Issued(log), op)
      requires Settled(before, db.store, Apply(before, op), committed, clean)
      modifies this`log
      ensures Valid() && Serves(old(log), op, log)
      ensures committed ==> Served(old(log), op, log)
      ensures clean <==> log != old(log)
    {
      if clean {
        var log' := log + [Event(op, Apply(before, op).result)];
        assert log'[..|log'| - 1] == log;
        log := log';
      }
    }

    /**
     A login answers 200 only to the registered password of a user whose code was accepted, 403 to a
     user without an accepted code, and 401 to anything else, unless something failed from outside.
     */
    method Login(email: string, password: string, startedAt: int, mint: Mint) returns (response: Response)
      requires Valid() && Generates(OpLogin(email, password, mint)) && |mint.secret| == RefreshTokenService.SECRET_BYTES
      modifies this, db
      ensures Valid() && Serves(old(log), OpLogin(email, password, mint), log)
      ensures response.status == 200 <==> response.cookie.Set?
      ensures response.status == 200 ==>
                && Served(old(log), OpLogin(email, password, mint), log)
                && email in Registered(old(log)) && Registered(old(log))[email].password == password
                && Registered(old(log))[email].userId in VerifiedBy(old(log))
      ensures log == old(log) ==> response.status == 500 || response.status == 401
      ensures log != old(log) ==>
                var registered := Registered(old(log));
                response.status == if email !in registered then 401
                                   else if registered[email].userId !in VerifiedBy(old(log)) then 403
                                   else if registered[email].password != password then 401
                                   else 200
      ensures response.cookie.Set? ==> IsLiveToken(db.store, response.cookie.value)
    {
      Queries();
      ghost var op, before, past := OpLogin(email, password, mint), db.store, log;
      ghost var committed, clean;
      response, committed, clean := Handlers.Login(db, email, password, startedAt, mint);
      Record(op, before, committed, clean);
      if clean {
        ServesNext(past, op, log);
        LoginAnswered(log, |past|);
        IsNewToken(past, mint.id);
      }
    }

    /**
     A refresh sets a cookie only for a token that was handed out and not yet redeemed or logged out.
     It answers 403 and clears the cookie for one that is spent, too old, or not the one its id was
     given to; with any other string the answer is 500 and the cookie stays, as after every failure
     from outside.
     */
    method Refresh(cookie: Option<string>, startedAt: int, checkedAt: int, mint: Mint) returns (response: Response)
      requires Valid() && |mint.secret| == RefreshTokenService.SECRET_BYTES
      requires cookie.Some? ==> Generates(OpRefresh(cookie.value, startedAt, checkedAt, mint))
      modifies this, db
      ensures Valid()
      ensures cookie.None? ==> log == old(log)
      ensures cookie.Some? ==> Serves(old(log), OpRefresh(cookie.value, startedAt, checkedAt, mint), log)
      ensures response.status == 200 <==> response.cookie.Set?
      ensures response.cookie.Set? ==>
                && cookie.Some? && Served(old(log), OpRefresh(cookie.value, startedAt, checkedAt, mint), log)
                && cookie.value in Minted(old(log)) && cookie.value !in Spent(old(log)) && cookie.value in Spent(log)
      ensures cookie.Some? && log == old(log) ==> response == Response(500, Untouched)
      ensures cookie.Some? && cookie.value !in Minted(old(log)) && log != old(log) ==>
                response == if Unissued(Minted(old(log)), cookie.value) == InvalidToken
                            then Response(403, Cleared) else Response(500, Untouched)
      ensures cookie.Some? && cookie.value in Minted(old(log)) && log != old(log) ==>
                response == if cookie.value in Spent(old(log)) then Response(403, Cleared)
                            else if checkedAt > Minted(old(log))[cookie.value].issuedAt + 2592000
                            then Response(403, Cleared)
                            else Response(200, Set(Print(mint.id, mint.secret)))
      ensures response.cookie.Set? ==> IsLiveToken(db.store, response.cookie.value)
    {
      ghost var before, past := db.store, log;
      ghost var committed, clean;
      response, committed, clean := Handlers.Refresh(db, cookie, startedAt, checkedAt, mint);
      if cookie.Some? {
        ghost var op := OpRefresh(cookie.value, startedAt, checkedAt, mint);
        Record(op, before, committed, clean);
        HistoryIsFaithful(past);
        NextRefresh(past, cookie.value, startedAt, checkedAt, mint);
        IsNewToken(past, mint.id);
        if committed {
          ServedPrefix(past, op, log);
          SpentGrows(log, |past|);
        }
      }
    }

    /**
     A logout answers 204 exactly to a token that was handed out, spent or not, 404 to another string
     with the id of one, and 500 with the cookie left alone to any other string and after a failure.
     */
    method Logout(cookie: Option<string>, startedAt: int) returns (response: Response)
      requires Valid()
      modifies this, db
      ensures Valid() && !response.cookie.Set?
      ensures cookie.None? ==> log == old(log)
      ensures cookie.Some? ==> Serves(old(log), OpLogout(cookie.value, startedAt), log)
      ensures cookie.Some? && response.status == 204 ==> cookie.value in Minted(old(log)) && cookie.value in Spent(log)
      ensures cookie.Some? && log == old(log) ==> response == Response(500, Untouched)
      ensures cookie.Some? && log != old(log) ==>
                response == if cookie.value in Minted(old(log)) then Response(204, Cleared)
                            else if Unissued(Minted(old(log)), cookie.value) == InvalidToken
                            then Response(404, Cleared) else Response(500, Untouched)
    {
      ghost var before, past := db.store, log;
      ghost var committed, clean;
      response, committed, clean := Handlers.Logout(db, cookie, startedAt);
      if cookie.Some? {
        ghost var op := OpLogout(cookie.value, startedAt);
        Record(op, before, committed, clean);
        HistoryIsFaithful(past);
        NextLogout(past, cookie.value, startedAt);
        if committed {
          ServedPrefix(past, op, log);
          SpentGrows(log, |past|);
        }
      }
    }

    method Callback(claim: Claim, userId: Id, identityId: Id, now: int, mint: Mint) returns (response: Redirect)
      requires Valid() && Generates(OpCallback(claim, userId, identityId, now, mint))
      requires |mint.secret| == RefreshTokenService.SECRET_BYTES
      modifies this, db
      ensures Valid() && Serves(old(log), OpCallback(claim, userId, identityId, now, mint), log)
      ensures response.error.None? <==> response.cookie.Set?
      ensures response.error.None? ==> Served(old(log), OpCallback(claim, userId, identityId, now, mint), log)
      ensures response.cookie.Set? ==> IsLiveToken(db.store, response.cookie.value)
    {
      Queries();
      ghost var op, before := OpCallback(claim, userId, identityId, now, mint), db.store;
      ghost var committed, clean;
      response, committed, clean := Handlers.Callback(db, claim, userId, identityId, now, mint);
      Record(op, before, committed, clean);
    }

    method Register(name: string, email: string, password: string, userId: Id, codeId: Id, code: string, now: int)
    returns (response: Response, mail: Option<Mail>)
      requires Valid() && Generates(OpRegister(name, email, password, userId, codeId, code, now))
      modifies this, db
      ensures Valid() && Serves(old(log), OpRegister(name, email, password, userId, codeId, code, now), log)
      ensures response.status == 201 <==> mail == Some(Mail(email, code))
      ensures mail.Some? ==> Served(old(log), OpRegister(name, email, password, userId, codeId, code, now), log)
    {
      ghost var op, before := OpRegister(name, email, password, userId, codeId, code, now), db.store;
      ghost var committed, clean;
      response, mail, committed, clean := Handlers.Register(db, name, email, password, userId, codeId, code, now);
      Record(op, before, committed, clean);
    }

    /**
     A code is accepted exactly if it is the last one delivered to a user not verified before, and
     answered 400 otherwise, unless something failed from outside.
     */
    method Verify(code: string, now: int) returns (response: Response)
      requires Valid()
      modifies this, db
      ensures Valid() && Serves(old(log), OpVerify(code, now), log)
      ensures response.status == 200 ==>
                && Served(old(log), OpVerify(code, now), log)
                && exists u :: u in LastCode(old(log)) && LastCode(old(log))[u] == code
                               && u !in VerifiedBy(old(log)) && u in VerifiedBy(log)
      ensures log == old(log) ==> response.status == 500 || response.status == 400
      ensures log != old(log) ==>
                response.status == if IsAwaited(old(log), code) then 200 else 400
    {
      Queries();
      ghost var op, before, past := OpVerify(code, now), db.store, log;
      ghost var committed, clean;
      response, committed, clean := Handlers.Verify(db, code, now);
      Record(op, before, committed, clean);
      if clean {
        ServesNext(past, op, log);
        CodeRefusedIff(log, |past|);
      }
      if committed {
        ServedPrefix(past, op, log);
        ghost var u := AcceptedUser(log, |past|);
        assert log[..|log| - 1] == past;
      }
    }

    /** A code is mailed exactly to a registered address whose user is not verified, unless something failed. */
    method HandleResend(email: string, codeId: Id, code: string, now: int) returns (mail: Option<Mail>)
      requires Valid() && Generates(OpResend(email, codeId, code, now))
      modifies this, db
      ensures Valid() && Serves(old(log), OpResend(email, codeId, code, now), log)
      ensures mail.Some? ==>
                mail.value == Mail(email, code) && Served(old(log), OpResend(email, codeId, code, now), log)
      ensures log != old(log) ==>
                var registered := Registered(old(log));
                mail.Some? <==> email in registered && registered[email].userId !in VerifiedBy(old(log))
    {
      Queries();
      ghost var op, before, past := OpResend(email, codeId, code, now), db.store, log;
      ghost var committed, clean;
      var r;
      r, mail, committed, clean := Handlers.HandleResend(db, email, codeId, code, now);
      Record(op, before, committed, clean);
      if clean {
        ServesNext(past, op, log);
        ResendAnswered(log, |past|);
      }
    }
  }
}
