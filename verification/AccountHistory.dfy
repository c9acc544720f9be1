/**
 Accounts over whole histories of requests: the invariant of `Accounts` in every reachable store,
 and what the history alone says about codes, logins and identities.
 */
module AccountHistory {
  import opened Wrappers
  import opened Model
  import opened Operations
  import opened Accounts
  import TokenEffects

  /** The code a served request generated. */
  function IssuedBy(e: Event): set<string> {
    if (e.op.OpRegister? || e.op.OpResend?) && e.result.Ok? then {e.op.code} else {}
  }

  function Issued(log: seq<Event>): set<string> {
    if log == [] then {} else Issued(log[..|log| - 1]) + IssuedBy(log[|log| - 1])
  }

  /** A faithful history in which served requests generated ids and codes never used before. */
  ghost predicate History(log: seq<Event>) {
    log == [] ||
    (var init, e := log[..|log| - 1], log[|log| - 1];
     && History(init)
     && Apply(After(EMPTY, init), e.op).result == e.result
     && (e.result.Ok? ==> FreshFor(After(EMPTY, init), Issued(init), e.op)))
  }

  lemma {:induction false} HistoryIsFaithful(log: seq<Event>)
    requires History(log)
    ensures Faithful(EMPTY, log)
  {
    if log != [] {
      HistoryIsFaithful(log[..|log| - 1]);
    }
  }

  lemma {:induction false} HistoryPrefix(log: seq<Event>, n: nat)
    requires History(log) && n <= |log|
    ensures History(log[..n])
  {
    if n == |log| {
      assert log[..n] == log;
    } else {
      var init := log[..|log| - 1];
      HistoryPrefix(init, n);
      assert init[..n] == log[..n];
    }
  }

  /** Users, identities and codes; the token requests leave these three alone. */
  ghost predicate SameAccounts(s: Store, s': Store) {
    s'.users == s.users && s'.identities == s.identities && s'.codes == s.codes
  }

  lemma TokenRequestsKeepAccounts(s: Store, op: Op)
    requires op.OpLogin? || op.OpRefresh? || op.OpLogout?
    ensures SameAccounts(s, Apply(s, op).store)
  {
    match op
    case OpLogin(email, password, mint) => LoginKeepsAccounts(s, email, password, mint);
    case OpRefresh(raw, startedAt, checkedAt, mint) => RefreshKeepsAccounts(s, raw, startedAt, checkedAt, mint);
    case OpLogout(raw, startedAt) => LogoutKeepsAccounts(s, raw, startedAt);
  }

  lemma InsertKeepsAccounts(s: Store, raw: string, o: Origin)
    ensures SameAccounts(s, InsertToken(s, raw, o).store)
  {
  }

  lemma BundleKeepsAccounts(s: Store, userId: Id, mint: Mint)
    ensures SameAccounts(s, GenerateBundle(s, userId, mint).store)
  {
    InsertKeepsAccounts(s, MintedRaw(mint), Origin(mint.id, userId, mint.issuedAt));
  }

  lemma LoginKeepsAccounts(s: Store, email: string, password: string, mint: Mint)
    ensures SameAccounts(s, Login(s, email, password, mint).store)
  {
    var admitted := Admit(s.users, email, password);
    if admitted.Ok? {
      BundleKeepsAccounts(s, admitted.value, mint);
    }
  }

  lemma RefreshKeepsAccounts(s: Store, raw: string, startedAt: int, checkedAt: int, mint: Mint)
    ensures SameAccounts(s, Refresh(s, raw, startedAt, checkedAt, mint).store)
  {
    var a := Refresh(s, raw, startedAt, checkedAt, mint);
    if a.result.Ok? {
      TokenEffects.RefreshEffect(s, raw, startedAt, checkedAt, mint);
      var (id, row) := Lookup(s, raw).value;
      BundleKeepsAccounts(RevokeRow(s, id, startedAt), row.userId, mint);
    } else {
      TokenEffects.RefusedRefresh(s, raw, startedAt, checkedAt, mint);
    }
  }

  lemma LogoutKeepsAccounts(s: Store, raw: string, startedAt: int)
    ensures SameAccounts(s, Revoke(s, raw, startedAt).store)
  {
  }

  /** On accounts a callback does what resolving its claim does, or nothing. */
  lemma CallbackOnAccounts(s: Store, claim: Claim, userId: Id, identityId: Id, now: int, mint: Mint)
    ensures var a, r := Callback(s, claim, userId, identityId, now, mint), Resolve(s, claim, userId, identityId, now);
            if a.result.Ok? then r.result.Ok? && SameAccounts(r.store, a.store) else a.store == s
  {
  }

  lemma StepKeepsInv(s: Store, issued: set<string>, e: Event)
    requires Inv(s, issued) && Apply(s, e.op).result == e.result && (e.result.Ok? ==> FreshFor(s, issued, e.op))
    ensures Inv(Apply(s, e.op).store, issued + IssuedBy(e))
  {
    if e.result.Err? {
      TokenEffects.FailureKeepsStore(s, e.op);
    } else {
      match e.op
      case OpRegister(name, email, password, userId, codeId, code, now) =>
        RegisterKeepsInv(s, issued, name, email, password, userId, codeId, code, now);
      case OpVerify(code, now) => VerifyKeepsInv(s, issued, code, now);
      case OpResend(email, codeId, code, now) => ResendKeepsInv(s, issued, email, codeId, code, now);
      case OpCallback(claim, userId, identityId, now, mint) =>
        ResolveKeepsInv(s, issued, claim, userId, identityId, now);
        CallbackOnAccounts(s, claim, userId, identityId, now, mint);
      case _ => TokenRequestsKeepAccounts(s, e.op);
    }
  }

  lemma {:induction false} InvOverHistory(log: seq<Event>)
    requires History(log)
    ensures Inv(After(EMPTY, log), Issued(log))
  {
    if log != [] {
      var init := log[..|log| - 1];
      InvOverHistory(init);
      StepKeepsInv(After(EMPTY, init), Issued(init), log[|log| - 1]);
    }
  }

  // ---------------------------------------------------------------- what is counted

  ghost function CodesOf(s: Store, userId: Id): set<Id> {
    set c | c in s.codes && IsCodeOf(s.codes, c, userId)
  }

  ghost function IdentitiesOf(s: Store, userId: Id): set<Id> {
    set i | i in s.identities && IsIdentityOf(s.identities, i, userId)
  }

  /**
   In every history each unverified user has exactly one outstanding code, and no verified user
   has one.
   */
  lemma OneCodePerUnverifiedUser(log: seq<Event>, userId: Id)
    requires History(log) && userId in After(EMPTY, log).users
    ensures |CodesOf(After(EMPTY, log), userId)| == if After(EMPTY, log).users[userId].emailVerified then 0 else 1
  {
    InvOverHistory(log);
    var s := After(EMPTY, log);
    if Unverified(s.users, userId) {
      var c :| IsCodeOf(s.codes, c, userId);
      assert CodesOf(s, userId) == {c};
    } else {
      assert CodesOf(s, userId) == {};
    }
  }

  /**
   In every history a user has no password exactly when exactly one identity row points to them;
   nobody has two, and users without a password are verified.
   */
  lemma OneIdentityPerPasswordlessUser(log: seq<Event>, userId: Id)
    requires History(log) && userId in After(EMPTY, log).users
    ensures var s := After(EMPTY, log);
            && |IdentitiesOf(s, userId)| <= 1
            && (s.users[userId].passwordHash.None? <==> |IdentitiesOf(s, userId)| == 1)
            && (s.users[userId].passwordHash.None? ==> s.users[userId].emailVerified)
  {
    InvOverHistory(log);
    var s := After(EMPTY, log);
    if Passwordless(s.users, userId) {
      var i :| IsIdentityOf(s.identities, i, userId);
      assert IdentitiesOf(s, userId) == {i};
    } else {
      assert forall i :: i in s.identities ==> Passwordless(s.users, s.identities[i].userId);
      assert IdentitiesOf(s, userId) == {};
    }
  }

  /** No two users ever share an e-mail address. */
  lemma EmailsStayDistinct(log: seq<Event>, a: Id, b: Id)
    requires History(log) && a in After(EMPTY, log).users && b in After(EMPTY, log).users && a != b
    ensures After(EMPTY, log).users[a].email != After(EMPTY, log).users[b].email
  {
    InvOverHistory(log);
  }

  // ---------------------------------------------------------------- what one request keeps

  /**
   Users never go, keep their password hash, never become unverified again, and keep their e-mail
   if they have a password. Identity rows never go and never change at all.
   */
  ghost predicate AccountsKept(s: Store, s': Store) {
    && (forall u :: u in s.users ==>
          u in s'.users && s'.users[u].passwordHash == s.users[u].passwordHash
          && (s.users[u].emailVerified ==> s'.users[u].emailVerified)
          && (s.users[u].passwordHash.Some? ==> s'.users[u].email == s.users[u].email))
    && (forall i :: i in s.identities ==> i in s'.identities && s'.identities[i] == s.identities[i])
  }

  lemma VerifyKeepsAccounts(s: Store, issued: set<string>, code: string, now: int)
    requires Inv(s, issued)
    ensures AccountsKept(s, Verify(s, code, now).store)
  {
    VerifyCases(s, issued, code, now);
  }

  lemma ResolveKeepsAccounts(s: Store, issued: set<string>, claim: Claim, userId: Id, identityId: Id, now: int)
    requires Inv(s, issued) && Unused(s, userId) && Unused(s, identityId) && userId != identityId
    ensures AccountsKept(s, Resolve(s, claim, userId, identityId, now).store)
  {
    ResolveCases(s, issued, claim, userId, identityId, now);
    ResolvedKeepsAccounts(s, claim, userId, identityId, now, Resolve(s, claim, userId, identityId, now));
  }

  lemma ResolvedKeepsAccounts(s: Store, claim: Claim, userId: Id, identityId: Id, now: int, a: Outcome<Id>)
    requires ResolvedTo(s, claim, userId, identityId, now, a) && Unused(s, userId) && Unused(s, identityId)
    ensures AccountsKept(s, a.store)
  {
  }

  lemma StepKeepsAccounts(s: Store, issued: set<string>, e: Event)
    requires Inv(s, issued) && Apply(s, e.op).result == e.result && (e.result.Ok? ==> FreshFor(s, issued, e.op))
    ensures AccountsKept(s, Apply(s, e.op).store)
  {
    if e.result.Err? {
      TokenEffects.FailureKeepsStore(s, e.op);
    } else {
      match e.op
      case OpRegister(name, email, password, userId, codeId, code, now) =>
        RegisterCases(s, issued, name, email, password, userId, codeId, code, now);
      case OpVerify(code, now) => VerifyKeepsAccounts(s, issued, code, now);
      case OpResend(email, codeId, code, now) => ResendCases(s, issued, email, codeId, code, now);
      case OpCallback(claim, userId, identityId, now, mint) =>
        ResolveKeepsAccounts(s, issued, claim, userId, identityId, now);
        CallbackOnAccounts(s, claim, userId, identityId, now, mint);
      case _ => TokenRequestsKeepAccounts(s, e.op);
    }
  }

  lemma {:induction false} HistoryKeepsAccounts(log: seq<Event>, n: nat)
    requires History(log) && n <= |log|
    ensures AccountsKept(After(EMPTY, log[..n]), After(EMPTY, log))
  {
    if n == |log| {
      assert log[..n] == log;
    } else {
      var init := log[..|log| - 1];
      HistoryKeepsAccounts(init, n);
      assert init[..n] == log[..n];
      InvOverHistory(init);
      StepKeepsAccounts(After(EMPTY, init), Issued(init), log[|log| - 1]);
    }
  }

  /** A verified e-mail stays verified. */
  lemma VerifiedForGood(log: seq<Event>, n: nat, userId: Id)
    requires History(log) && n <= |log|
    requires userId in After(EMPTY, log[..n]).users && After(EMPTY, log[..n]).users[userId].emailVerified
    ensures userId in After(EMPTY, log).users && After(EMPTY, log).users[userId].emailVerified
  {
    HistoryKeepsAccounts(log, n);
  }

  /**
   At most one identity exists per provider and subject, and once it does, the pair resolves to it
   and to the same user for ever.
   */
  lemma BindingIsStable(log: seq<Event>, n: nat, i: Id)
    requires History(log) && n <= |log| && i in After(EMPTY, log[..n]).identities
    ensures var identity := After(EMPTY, log[..n]).identities[i];
            FindIdentity(After(EMPTY, log).identities, identity.provider, identity.subject) == Some(i)
            && After(EMPTY, log).identities[i] == identity
  {
    HistoryKeepsAccounts(log, n);
    InvOverHistory(log);
    var identities := After(EMPTY, log).identities;
    FindIdentityIs(identities, i);
  }

  lemma FindIdentityIs(identities: map<Id, Identity>, i: Id)
    requires i in identities
    requires forall a, b :: a in identities && b in identities && SameSubject(identities[a], identities[b]) ==> a == b
    ensures FindIdentity(identities, identities[i].provider, identities[i].subject) == Some(i)
  {
    var provider, subject := identities[i].provider, identities[i].subject;
    FoundIdentity(identities, provider, subject);
    assert HasSubject(identities, i, provider, subject);
    assert SameSubject(identities[FindIdentity(identities, provider, subject).value], identities[i]);
  }

  /** The account tables up to the users' `updated_at` column. */
  ghost predicate SameButForUpdatedAt(s: Store, s': Store) {
    && s'.identities == s.identities && s'.codes == s.codes && s'.tokens == s.tokens
    && s'.users.Keys == s.users.Keys
    && forall u :: u in s.users ==> s'.users[u].(updatedAt := s.users[u].updatedAt) == s.users[u]
  }

  /**
   Resolving a claim again, whenever and with whatever generated ids, finds the same user and
   changes nothing but perhaps that user's `updated_at`.
   */
  lemma ResolveTwice(s: Store, issued: set<string>, claim: Claim, userId: Id, identityId: Id, now: int,
                     userId': Id, identityId': Id, now': int)
    requires Inv(s, issued) && Unused(s, userId) && Unused(s, identityId) && userId != identityId
    requires var once := Resolve(s, claim, userId, identityId, now);
             once.result.Ok? && Unused(once.store, userId') && Unused(once.store, identityId') && userId' != identityId'
    ensures var once := Resolve(s, claim, userId, identityId, now);
            var twice := Resolve(once.store, claim, userId', identityId', now');
            twice.result == once.result && SameButForUpdatedAt(once.store, twice.store)
  {
    ResolveCases(s, issued, claim, userId, identityId, now);
    ResolveKeepsInv(s, issued, claim, userId, identityId, now);
    var once := Resolve(s, claim, userId, identityId, now);
    var found := FindIdentity(s.identities, claim.provider, claim.subject);
    FindIdentityIs(once.store.identities, if found.Some? then found.value else identityId);
    ResolveKnown(once.store, issued, claim, once.result.value, userId', identityId', now');
  }

  /** Resolving a claim whose e-mail its user already has. */
  lemma ResolveKnown(s: Store, issued: set<string>, claim: Claim, owner: Id, userId: Id, identityId: Id, now: int)
    requires Inv(s, issued) && Unused(s, userId) && Unused(s, identityId) && userId != identityId
    requires var found := FindIdentity(s.identities, claim.provider, claim.subject);
             found.Some? && found.value in s.identities && s.identities[found.value].userId == owner
             && (s.identities[found.value].email != claim.email ==> HasEmail(s.users, owner, claim.email))
    ensures var a := Resolve(s, claim, userId, identityId, now);
            a.result == Ok(owner) && SameButForUpdatedAt(s, a.store)
  {
    ResolveCases(s, issued, claim, userId, identityId, now);
  }
}
