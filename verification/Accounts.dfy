/**
 What holds between users, identities and verification codes after every request, and what one
 request does to accounts that other requests rely on.

 Requests run one after the other here: the service reads users without locking them.
 */
module Accounts {
  import opened Wrappers
  import opened Model
  import opened Operations

  // ---------------------------------------------------------------- the invariant

  ghost predicate UniqueEmails(users: map<Id, User>) {
    forall a, b :: a in users && b in users && users[a].email == users[b].email ==> a == b
  }

  ghost predicate IsCodeOf(codes: map<Id, Code>, c: Id, userId: Id) {
    c in codes && codes[c].userId == userId
  }

  ghost predicate Unverified(users: map<Id, User>, userId: Id) {
    userId in users && !users[userId].emailVerified
  }

  /** Codes belong to unverified users, one each; no two share a hash, and all were issued. */
  ghost predicate CodesMatch(users: map<Id, User>, codes: map<Id, Code>, issued: set<string>) {
    && (forall c :: c in codes ==>
          Unverified(users, codes[c].userId) && codes[c].hash.Sha256? && codes[c].hash.text in issued)
    && (forall c, d :: c in codes && d in codes && codes[c].userId == codes[d].userId ==> c == d)
    && (forall c, d :: c in codes && d in codes && codes[c].hash == codes[d].hash ==> c == d)
    && (forall u :: Unverified(users, u) ==> exists c :: IsCodeOf(codes, c, u))
  }

  ghost predicate IsIdentityOf(identities: map<Id, Identity>, i: Id, userId: Id) {
    i in identities && identities[i].userId == userId
  }

  ghost predicate Passwordless(users: map<Id, User>, userId: Id) {
    userId in users && users[userId].passwordHash.None?
  }

  ghost predicate SameSubject(a: Identity, b: Identity) {
    a.provider == b.provider && a.subject == b.subject
  }

  /**
   Identities belong to password-less users, one each, and such users are verified. An identity's
   e-mail is its user's until the user's row is updated, and never again after that.
   */
  ghost predicate IdentitiesMatch(users: map<Id, User>, identities: map<Id, Identity>) {
    && (forall i :: i in identities ==> Passwordless(users, identities[i].userId) && i !in users)
    && (forall i, j :: i in identities && j in identities && identities[i].userId == identities[j].userId ==> i == j)
    && (forall i, j :: i in identities && j in identities && SameSubject(identities[i], identities[j]) ==> i == j)
    && (forall u :: Passwordless(users, u) ==> users[u].emailVerified && exists i :: IsIdentityOf(identities, i, u))
    && (forall i :: i in identities && identities[i].userId in users ==>
          (users[identities[i].userId].email == identities[i].email <==> users[identities[i].userId].updatedAt.None?))
  }

  ghost predicate Inv(s: Store, issued: set<string>) {
    UniqueEmails(s.users) && CodesMatch(s.users, s.codes, issued) && IdentitiesMatch(s.users, s.identities)
  }

  // ---------------------------------------------------------------- freshness

  ghost predicate Unused(s: Store, id: Id) {
    id !in s.users && id !in s.identities && id !in s.codes && id !in s.tokens
  }

  /** Generated ids are unused in all four tables and generated codes were never issued. */
  ghost predicate FreshFor(s: Store, issued: set<string>, op: Op) {
    match op
    case OpRegister(_, _, _, userId, codeId, code, _) =>
      Unused(s, userId) && Unused(s, codeId) && userId != codeId && code !in issued
    case OpVerify(_, _) => true
    case OpResend(_, codeId, code, _) => Unused(s, codeId) && code !in issued
    case OpLogin(_, _, mint) => Unused(s, mint.id)
    case OpCallback(_, userId, identityId, _, mint) =>
      Unused(s, userId) && Unused(s, identityId) && Unused(s, mint.id)
      && userId != identityId && mint.id != userId && mint.id != identityId
    case OpRefresh(_, _, _, mint) => Unused(s, mint.id)
    case OpLogout(_, _) => true
  }

  // ---------------------------------------------------------------- finding rows

  /** On unique e-mails the finder is determined. */
  lemma FindByEmailIs(users: map<Id, User>, id: Id, email: string)
    requires UniqueEmails(users) && HasEmail(users, id, email)
    ensures FindByEmail(users, email) == Some(id)
  {
  }

  lemma FoundByEmail(users: map<Id, User>, email: string)
    ensures FindByEmail(users, email).Some? ==> HasEmail(users, FindByEmail(users, email).value, email)
    ensures FindByEmail(users, email).None? <==> !EmailTaken(users, email, None)
  {
    if EmailTaken(users, email, None) {
      var id :| HasEmail(users, id, email);
    }
  }

  lemma FoundCode(codes: map<Id, Code>, hash: Digest)
    ensures FindCode(codes, hash).Some? ==> HasHash(codes, FindCode(codes, hash).value, hash)
    ensures FindCode(codes, hash).None? ==> forall c :: c in codes ==> codes[c].hash != hash
  {
    forall c | c in codes && codes[c].hash == hash ensures FindCode(codes, hash).Some? {
      assert HasHash(codes, c, hash);
    }
  }

  lemma FoundIdentity(identities: map<Id, Identity>, provider: string, subject: string)
    ensures FindIdentity(identities, provider, subject).Some? ==>
              HasSubject(identities, FindIdentity(identities, provider, subject).value, provider, subject)
    ensures FindIdentity(identities, provider, subject).None? ==>
              forall i :: i in identities ==> identities[i].provider != provider || identities[i].subject != subject
  {
    forall i | i in identities && identities[i].provider == provider && identities[i].subject == subject
      ensures FindIdentity(identities, provider, subject).Some?
    {
      assert HasSubject(identities, i, provider, subject);
    }
  }

  // ---------------------------------------------------------------- one request keeps the invariant

  lemma RegisterCases(s: Store, issued: set<string>, name: string, email: string, password: string,
                      userId: Id, codeId: Id, code: string, now: int)
    requires FreshFor(s, issued, OpRegister(name, email, password, userId, codeId, code, now))
    ensures Register(s, name, email, password, userId, codeId, code, now) ==
              if EmailTaken(s.users, email, None) then Outcome(s, Err(EmailExists))
              else Outcome(
                s.(users := s.users[userId := User(name, email, false, Some(Bcrypt(password)), now, None)],
                   codes := s.codes[codeId := Code(userId, Sha256(code), now + CODE_LIFETIME, now)]),
                Ok(Account(userId)))
  {
  }

  lemma RegisterKeepsInv(s: Store, issued: set<string>, name: string, email: string, password: string,
                         userId: Id, codeId: Id, code: string, now: int)
    requires Inv(s, issued) && FreshFor(s, issued, OpRegister(name, email, password, userId, codeId, code, now))
    ensures Inv(Register(s, name, email, password, userId, codeId, code, now).store, issued + {code})
  {
    RegisterCases(s, issued, name, email, password, userId, codeId, code, now);
    if !EmailTaken(s.users, email, None) {
      var user := User(name, email, false, Some(Bcrypt(password)), now, None);
      NewAccountKeepsInv(s, issued, userId, user, codeId, code, now);
    }
  }

  /** A new user with a password and their first code. */
  lemma NewAccountKeepsInv(s: Store, issued: set<string>, userId: Id, user: User, codeId: Id, code: string, now: int)
    requires Inv(s, issued) && Unused(s, userId) && Unused(s, codeId) && code !in issued
    requires !EmailTaken(s.users, user.email, None) && !user.emailVerified && user.passwordHash.Some?
    ensures Inv(s.(users := s.users[userId := user],
                   codes := s.codes[codeId := Code(userId, Sha256(code), now + CODE_LIFETIME, now)]), issued + {code})
  {
    NewUserKeepsEmails(s.users, userId, user);
    NewPasswordUserKeepsIdentities(s.users, s.identities, userId, user);
    var users' := s.users[userId := user];
    forall u | Unverified(users', u) && u != userId ensures exists c :: IsCodeOf(s.codes, c, u) {
      assert Unverified(s.users, u);
    }
    NewCodeKeepsMatch(users', s.codes, issued, codeId, userId, code, now);
  }

  lemma NewUserKeepsEmails(users: map<Id, User>, userId: Id, user: User)
    requires UniqueEmails(users) && userId !in users && !EmailTaken(users, user.email, None)
    ensures UniqueEmails(users[userId := user])
  {
    forall a | a in users ensures users[a].email != user.email {
      assert !HasEmail(users, a, user.email);
    }
  }

  /** A code for an unverified user who has none. */
  lemma NewCodeKeepsMatch(users: map<Id, User>, codes: map<Id, Code>, issued: set<string>,
                          codeId: Id, userId: Id, code: string, now: int)
    requires forall c :: c in codes ==>
               Unverified(users, codes[c].userId) && codes[c].hash.Sha256? && codes[c].hash.text in issued
               && codes[c].userId != userId
    requires forall c, d :: c in codes && d in codes && codes[c].userId == codes[d].userId ==> c == d
    requires forall c, d :: c in codes && d in codes && codes[c].hash == codes[d].hash ==> c == d
    requires forall u :: Unverified(users, u) && u != userId ==> exists c :: IsCodeOf(codes, c, u)
    requires Unverified(users, userId) && codeId !in codes && code !in issued
    ensures CodesMatch(users, codes[codeId := Code(userId, Sha256(code), now + CODE_LIFETIME, now)], issued + {code})
  {
    var codes' := codes[codeId := Code(userId, Sha256(code), now + CODE_LIFETIME, now)];
    forall u | Unverified(users, u) ensures exists c :: IsCodeOf(codes', c, u) {
      if u == userId {
        assert IsCodeOf(codes', codeId, u);
      } else {
        var c :| IsCodeOf(codes, c, u);
        assert IsCodeOf(codes', c, u);
      }
    }
  }

  lemma NewPasswordUserKeepsIdentities(users: map<Id, User>, identities: map<Id, Identity>, userId: Id, user: User)
    requires IdentitiesMatch(users, identities) && userId !in users && userId !in identities && user.passwordHash.Some?
    ensures IdentitiesMatch(users[userId := user], identities)
  {
    var users' := users[userId := user];
    forall u | Passwordless(users', u) ensures users'[u].emailVerified && exists i :: IsIdentityOf(identities, i, u) {
      assert Passwordless(users, u);
    }
  }

  lemma ResendCases(s: Store, issued: set<string>, email: string, codeId: Id, code: string, now: int)
    requires FreshFor(s, issued, OpResend(email, codeId, code, now))
    ensures var found := FindByEmail(s.users, email);
            if found.Some? && Unverified(s.users, found.value) then
              HasEmail(s.users, found.value, email)
              && Resend(s, email, codeId, code, now) == Outcome(
                   s.(codes := CodesWithout(s.codes, found.value)
                                 [codeId := Code(found.value, Sha256(code), now + CODE_LIFETIME, now)]),
                   Ok(Sent(found.value)))
            else Resend(s, email, codeId, code, now) == Outcome(s, Ok(Nothing))
  {
    FoundByEmail(s.users, email);
  }

  lemma ResendKeepsInv(s: Store, issued: set<string>, email: string, codeId: Id, code: string, now: int)
    requires Inv(s, issued) && FreshFor(s, issued, OpResend(email, codeId, code, now))
    ensures Inv(Resend(s, email, codeId, code, now).store, issued + {code})
  {
    ResendCases(s, issued, email, codeId, code, now);
    var found := FindByEmail(s.users, email);
    if found.Some? && Unverified(s.users, found.value) {
      var others := CodesWithout(s.codes, found.value);
      forall u | Unverified(s.users, u) && u != found.value ensures exists c :: IsCodeOf(others, c, u) {
        var c :| IsCodeOf(s.codes, c, u);
        assert IsCodeOf(others, c, u);
      }
      NewCodeKeepsMatch(s.users, others, issued, codeId, found.value, code, now);
    }
  }

  /** A code that is found is consumed and its user becomes verified: no other failure is possible. */
  lemma VerifyCases(s: Store, issued: set<string>, code: string, now: int)
    requires Inv(s, issued)
    ensures var found := FindCode(s.codes, Sha256(code));
            if found.None? then
              Verify(s, code, now) == Outcome(s, Err(InvalidCode))
              && forall c :: c in s.codes ==> s.codes[c].hash != Sha256(code)
            else
              HasHash(s.codes, found.value, Sha256(code))
              && var userId := s.codes[found.value].userId;
              Unverified(s.users, userId) && s.users[userId].passwordHash.Some?
              && Verify(s, code, now) == Outcome(
                   s.(users := s.users[userId := s.users[userId].(emailVerified := true, updatedAt := Some(now))],
                      codes := s.codes - {found.value}),
                   Ok(Account(userId)))
  {
    FoundCode(s.codes, Sha256(code));
    if FindCode(s.codes, Sha256(code)).Some? {
      var userId := s.codes[FindCode(s.codes, Sha256(code)).value].userId;
      assert Unverified(s.users, userId) && !Passwordless(s.users, userId);
    }
  }

  lemma VerifyKeepsInv(s: Store, issued: set<string>, code: string, now: int)
    requires Inv(s, issued)
    ensures Inv(Verify(s, code, now).store, issued)
  {
    VerifyCases(s, issued, code, now);
    if FindCode(s.codes, Sha256(code)).Some? {
      var id := FindCode(s.codes, Sha256(code)).value;
      ConsumeKeepsMatch(s.users, s.codes, issued, id, now);
      var userId := s.codes[id].userId;
      UpdateKeepsIdentities(s.users, s.identities, userId,
                            s.users[userId].(emailVerified := true, updatedAt := Some(now)));
    }
  }

  lemma ConsumeKeepsMatch(users: map<Id, User>, codes: map<Id, Code>, issued: set<string>, id: Id, now: int)
    requires CodesMatch(users, codes, issued) && id in codes && codes[id].userId in users
    ensures var userId := codes[id].userId;
            var user := users[userId].(emailVerified := true, updatedAt := Some(now));
            CodesMatch(users[userId := user], codes - {id}, issued)
  {
    var userId := codes[id].userId;
    var users' := users[userId := users[userId].(emailVerified := true, updatedAt := Some(now))];
    forall u | Unverified(users', u) ensures exists c :: IsCodeOf(codes - {id}, c, u) {
      assert Unverified(users, u);
      var c :| IsCodeOf(codes, c, u);
      assert IsCodeOf(codes - {id}, c, u);
    }
    forall c | c in codes - {id} ensures Unverified(users', codes[c].userId) {
      assert Unverified(users, codes[c].userId);
    }
  }

  /** Updating a row whose user has a password does not concern identities. */
  lemma UpdateKeepsIdentities(users: map<Id, User>, identities: map<Id, Identity>, userId: Id, user: User)
    requires IdentitiesMatch(users, identities) && userId in users
    requires users[userId].passwordHash.Some? && user.passwordHash.Some?
    ensures IdentitiesMatch(users[userId := user], identities)
  {
    var users' := users[userId := user];
    forall u | Passwordless(users', u) ensures users'[u].emailVerified && exists i :: IsIdentityOf(identities, i, u) {
      assert Passwordless(users, u);
    }
    forall i | i in identities ensures Passwordless(users', identities[i].userId) {
      assert Passwordless(users, identities[i].userId);
    }
  }

  /** A verified user who joins or changes leaves the codes matched. */
  lemma VerifiedUserKeepsCodes(users: map<Id, User>, codes: map<Id, Code>, issued: set<string>, userId: Id, user: User)
    requires CodesMatch(users, codes, issued) && user.emailVerified && !Unverified(users, userId)
    ensures CodesMatch(users[userId := user], codes, issued)
  {
    var users' := users[userId := user];
    forall u | Unverified(users', u) ensures exists c :: IsCodeOf(codes, c, u) {
      assert Unverified(users, u);
    }
    forall c | c in codes ensures Unverified(users', codes[c].userId) {
      assert Unverified(users, codes[c].userId);
    }
  }

  /** A new user with a new identity, neither of which clashes. */
  lemma NewIdentityKeepsMatch(users: map<Id, User>, identities: map<Id, Identity>,
                              userId: Id, user: User, identityId: Id, identity: Identity)
    requires IdentitiesMatch(users, identities) && userId !in users && userId !in identities
    requires identityId !in users && identityId !in identities && identityId != userId
    requires user.passwordHash.None? && user.emailVerified && user.updatedAt.None?
    requires identity.userId == userId && identity.email == user.email
    requires forall i :: i in identities ==> !SameSubject(identities[i], identity)
    ensures IdentitiesMatch(users[userId := user], identities[identityId := identity])
  {
    var users', identities' := users[userId := user], identities[identityId := identity];
    forall i | i in identities' ensures Passwordless(users', identities'[i].userId) && i !in users' {
      if i != identityId {
        assert Passwordless(users, identities[i].userId);
      }
    }
    forall u | Passwordless(users', u) ensures users'[u].emailVerified && exists i :: IsIdentityOf(identities', i, u) {
      if u == userId {
        assert IsIdentityOf(identities', identityId, u);
      } else {
        assert Passwordless(users, u);
        var i :| IsIdentityOf(identities, i, u);
        assert IsIdentityOf(identities', i, u);
      }
    }
  }

  /** A new e-mail that differs from the identity's, on the user's row only. */
  lemma NewEmailKeepsMatch(users: map<Id, User>, identities: map<Id, Identity>, i: Id, email: string, now: int)
    requires IdentitiesMatch(users, identities) && i in identities && identities[i].email != email
    ensures var owner := identities[i].userId;
            owner in users && owner !in identities && users[owner].emailVerified
            && IdentitiesMatch(users[owner := users[owner].(email := email, updatedAt := Some(now))], identities)
  {
    var owner := identities[i].userId;
    assert Passwordless(users, owner);
    var users' := users[owner := users[owner].(email := email, updatedAt := Some(now))];
    forall j | j in identities ensures Passwordless(users', identities[j].userId) && j !in users' {
      assert Passwordless(users, identities[j].userId);
    }
    forall u | Passwordless(users', u) ensures users'[u].emailVerified && exists j :: IsIdentityOf(identities, j, u) {
      assert Passwordless(users, u);
    }
  }

  lemma NewEmailStaysUnique(users: map<Id, User>, owner: Id, user: User)
    requires UniqueEmails(users) && owner in users && !EmailTaken(users, user.email, Some(owner))
    ensures UniqueEmails(users[owner := user])
  {
    forall a | a in users && a != owner ensures users[a].email != user.email {
      assert !HasEmail(users, a, user.email);
    }
  }

  /**
   What resolving a claim does, branch by branch. On the e-mail-change branch the pre-check has
   ruled the unique violation out, and no identity row changes: the update looks for the user's
   id among the identities.
   */
  ghost predicate ResolvedTo(s: Store, claim: Claim, userId: Id, identityId: Id, now: int, a: Outcome<Id>) {
    match FindIdentity(s.identities, claim.provider, claim.subject)
    case Some(i) =>
      HasSubject(s.identities, i, claim.provider, claim.subject)
      && var owner := s.identities[i].userId;
      Passwordless(s.users, owner) && owner !in s.identities
      && (if s.identities[i].email == claim.email then a == Outcome(s, Ok(owner))
          else if EmailTaken(s.users, claim.email, Some(owner)) then a == Outcome(s, Err(EmailExists))
          else
            var user := s.users[owner].(email := claim.email, updatedAt := Some(now));
            a == Outcome(s.(users := s.users[owner := user]), Ok(owner)))
    case None =>
      (if EmailTaken(s.users, claim.email, None) then a == Outcome(s, Err(EmailExists))
       else a == Outcome(
         s.(users := s.users[userId := User(claim.name, claim.email, true, None, now, None)],
            identities := s.identities[identityId :=
                                         Identity(userId, claim.provider, claim.subject, claim.email, now, None)]),
         Ok(userId)))
  }

  lemma ResolveCases(s: Store, issued: set<string>, claim: Claim, userId: Id, identityId: Id, now: int)
    requires Inv(s, issued) && Unused(s, userId) && Unused(s, identityId) && userId != identityId
    ensures ResolvedTo(s, claim, userId, identityId, now, Resolve(s, claim, userId, identityId, now))
  {
    FoundIdentity(s.identities, claim.provider, claim.subject);
    if FindIdentity(s.identities, claim.provider, claim.subject).Some? {
      var i := FindIdentity(s.identities, claim.provider, claim.subject).value;
      var owner := s.identities[i].userId;
      assert Passwordless(s.users, owner);
      FoundByEmail(s.users, claim.email);
      if EmailTaken(s.users, claim.email, Some(owner)) {
        var id :| HasEmail(s.users, id, claim.email) && Some(id) != Some(owner);
        FindByEmailIs(s.users, id, claim.email);
      }
    }
  }

  lemma ResolveKeepsInv(s: Store, issued: set<string>, claim: Claim, userId: Id, identityId: Id, now: int)
    requires Inv(s, issued) && Unused(s, userId) && Unused(s, identityId) && userId != identityId
    ensures Inv(Resolve(s, claim, userId, identityId, now).store, issued)
  {
    ResolveCases(s, issued, claim, userId, identityId, now);
    FoundIdentity(s.identities, claim.provider, claim.subject);
    var a := Resolve(s, claim, userId, identityId, now);
    match FindIdentity(s.identities, claim.provider, claim.subject)
    case Some(i) =>
      var owner := s.identities[i].userId;
      if a.result.Ok? && s.identities[i].email != claim.email {
        var user := s.users[owner].(email := claim.email, updatedAt := Some(now));
        NewEmailKeepsMatch(s.users, s.identities, i, claim.email, now);
        NewEmailStaysUnique(s.users, owner, user);
        VerifiedUserKeepsCodes(s.users, s.codes, issued, owner, user);
      }
    case None =>
      if a.result.Ok? {
        var user := User(claim.name, claim.email, true, None, now, None);
        NewUserKeepsEmails(s.users, userId, user);
        VerifiedUserKeepsCodes(s.users, s.codes, issued, userId, user);
        NewIdentityKeepsMatch(s.users, s.identities, userId, user, identityId,
                              Identity(userId, claim.provider, claim.subject, claim.email, now, None));
      }
  }
}
