/**
 Users, identities and verification codes: the repositories and services, statement by statement
 inside one transaction.
 */
module UserService {
  import opened Wrappers
  import opened Model
  import opened Operations
  import opened Persistence
  import opened Accounts
  import UserPatchSql

  // ---------------------------------------------------------------- which rows a query finds

  ghost predicate OneRowPerHash(codes: map<Id, Code>) {
    forall c, d :: c in codes && d in codes && codes[c].hash == codes[d].hash ==> c == d
  }

  ghost predicate OneRowPerSubject(identities: map<Id, Identity>) {
    forall i, j :: i in identities && j in identities && SameSubject(identities[i], identities[j]) ==> i == j
  }

  /** Every query by e-mail, by hash or by provider and subject has at most one answer. */
  ghost predicate Unambiguous(s: Store) {
    UniqueEmails(s.users) && OneRowPerHash(s.codes) && OneRowPerSubject(s.identities)
  }

  lemma InvIsUnambiguous(s: Store, issued: set<string>)
    requires Inv(s, issued)
    ensures Unambiguous(s)
  {
  }

  lemma FindCodeIs(codes: map<Id, Code>, id: Id, hash: Digest)
    requires OneRowPerHash(codes) && HasHash(codes, id, hash)
    ensures FindCode(codes, hash) == Some(id)
  {
    FoundCode(codes, hash);
  }

  lemma FindSubjectIs(identities: map<Id, Identity>, id: Id, provider: string, subject: string)
    requires OneRowPerSubject(identities) && HasSubject(identities, id, provider, subject)
    ensures FindIdentity(identities, provider, subject) == Some(id)
  {
    FoundIdentity(identities, provider, subject);
    assert SameSubject(identities[FindIdentity(identities, provider, subject).value], identities[id]);
  }

  // ---------------------------------------------------------------- users

  method InsertUser(tx: Transaction, id: Id, user: User) returns (r: Result<()>)
    requires tx.Open()
    modifies tx`view, tx`faulted
    ensures tx.faulted ==> r == Err(Fault)
    ensures r.Ok? ==> CreateUser(old(tx.view), id, user) == Outcome(tx.view, Ok(id))
    ensures r.Err? ==> tx.view == old(tx.view)
    ensures r.Err? && !tx.faulted ==>
              r.error == UniqueViolation && CreateUser(tx.view, id, user) == Outcome(tx.view, Err(EmailExists))
  {
    var ok := tx.Attempt();
    if !ok {
      return Err(Fault);
    }
    if exists u :: u in tx.view.users && tx.view.users[u].email == user.email {
      assert EmailTaken(tx.view.users, user.email, None) by {
        var u :| u in tx.view.users && tx.view.users[u].email == user.email;
        assert HasEmail(tx.view.users, u, user.email);
      }
      return Err(UniqueViolation);
    }
    if id in tx.view.users {
      return Err(UniqueViolation);
    }
    tx.view := tx.view.(users := tx.view.users[id := user]);
    return Ok(());
  }

  /** `Create`: hashes the password if there is one, and answers a unique violation as a taken e-mail. */
  method Create(tx: Transaction, id: Id, name: string, email: string, emailVerified: bool,
                password: Option<string>, now: int)
    returns (r: Result<Id>)
    requires tx.Open()
    modifies tx`view, tx`faulted
    ensures tx.faulted ==> r == Err(Fault)
    ensures !tx.faulted ==>
              var hash := if password.Some? then Some(Bcrypt(password.value)) else None;
              Outcome(tx.view, r) == CreateUser(old(tx.view), id, User(name, email, emailVerified, hash, now, None))
  {
    var registered := User(name, email, emailVerified, None, now, None);
    if password.Some? {
      var ok := tx.Attempt();
      if !ok {
        return Err(Fault);
      }
      registered := registered.(passwordHash := Some(Bcrypt(password.value)));
    }
    var inserted := InsertUser(tx, id, registered);
    if inserted.Err? {
      return Err(if inserted.error == UniqueViolation then EmailExists else inserted.error);
    }
    return Ok(id);
  }

  method GetByEmail(tx: Transaction, email: string) returns (r: Result<(Id, User)>)
    requires tx.Open() && UniqueEmails(tx.view.users)
    modifies tx`faulted
    ensures tx.faulted ==> r == Err(Fault)
    ensures !tx.faulted ==>
              match FindByEmail(tx.view.users, email)
              case Some(id) => id in tx.view.users && r == Ok((id, tx.view.users[id]))
              case None => r == Err(UserNotFound)
  {
    var ok := tx.Attempt();
    if !ok {
      return Err(Fault);
    }
    if id :| id in tx.view.users && tx.view.users[id].email == email {
      FindByEmailIs(tx.view.users, id, email);
      return Ok((id, tx.view.users[id]));
    }
    FoundByEmail(tx.view.users, email);
    return Err(UserNotFound);
  }

  method GetById(tx: Transaction, id: Id) returns (r: Result<(Id, User)>)
    requires tx.Open()
    modifies tx`faulted
    ensures tx.faulted ==> r == Err(Fault)
    ensures !tx.faulted ==> r == if id in tx.view.users then Ok((id, tx.view.users[id])) else Err(NoRows)
  {
    var ok := tx.Attempt();
    if !ok {
      return Err(Fault);
    }
    if id !in tx.view.users {
      return Err(NoRows);
    }
    return Ok((id, tx.view.users[id]));
  }

  /** Runs the statement on the row, if there is one, unless the new e-mail is another user's. */
  method ExecUpdate(tx: Transaction, id: Id, setText: string, args: map<string, UserPatchSql.Value>,
                    ghost patch: UserPatch, ghost now: int)
    returns (r: Result<()>)
    requires tx.Open() && UniqueEmails(tx.view.users) && patch != NO_PATCH
    requires forall row :: UserPatchSql.ExecuteText(row, setText, args) == Some(Patched(row, patch, now))
    modifies tx`view, tx`faulted
    ensures tx.faulted ==> r == Err(Fault)
    ensures r.Ok? && id !in old(tx.view.users) ==> tx.view == old(tx.view)
    ensures r.Ok? && id in old(tx.view.users) ==> Outcome(tx.view, Ok(id)) == UpdateUser(old(tx.view), id, patch, now)
    ensures r.Err? && !tx.faulted ==>
              id in old(tx.view.users) && Outcome(tx.view, Err(r.error)) == UpdateUser(old(tx.view), id, patch, now)
  {
    var ok := tx.Attempt();
    if !ok {
      return Err(Fault);
    }
    if id in tx.view.users {
      assert UserPatchSql.ExecuteText(tx.view.users[id], setText, args) == Some(Patched(tx.view.users[id], patch, now));
      var row := UserPatchSql.ExecuteText(tx.view.users[id], setText, args).value;
      if u :| u in tx.view.users && u != id && tx.view.users[u].email == row.email {
        assert HasEmail(tx.view.users, u, row.email);
        return Err(UniqueViolation);
      }
      tx.view := tx.view.(users := tx.view.users[id := row]);
    }
    return Ok(());
  }

  /** The id of the row that was answered. */
  function IdOf(r: Result<(Id, User)>): Result<Id> {
    match r
    case Ok((id, _)) => Ok(id)
    case Err(e) => Err(e)
  }

  /** `Update`: builds the statement, runs it, reads the row back; an empty patch only reads. */
  method Update(tx: Transaction, id: Id, patch: UserPatch, now: int) returns (r: Result<(Id, User)>)
    requires tx.Open() && UniqueEmails(tx.view.users)
    modifies tx`view, tx`faulted
    ensures tx.faulted ==> r == Err(Fault)
    ensures r.Ok? ==> id in tx.view.users && r.value == (id, tx.view.users[id])
    ensures !tx.faulted ==> Outcome(tx.view, IdOf(r)) == UpdateUser(old(tx.view), id, patch, now)
  {
    var setText, args := UserPatchSql.BuildUpdate(id, patch, now);
    if setText.None? {
      r := GetById(tx, id);
      EmptyPatch(tx.view, id, now);
      return;
    }
    var updated := ExecUpdate(tx, id, setText.value, args, patch, now);
    if updated.Err? {
      return Err(updated.error);
    }
    r := GetById(tx, id);
  }

  lemma EmptyPatch(s: Store, id: Id, now: int)
    ensures UpdateUser(s, id, NO_PATCH, now) == if id in s.users then Outcome(s, Ok(id)) else Outcome(s, Err(NoRows))
  {
    if id in s.users {
      assert s.users[id := s.users[id]] == s.users;
    }
  }

  // ---------------------------------------------------------------- identities

  /** The service's record of an identity; creating it fills in the id and the time. */
  class UserIdentity {
    var id: Id
    const userId: Id
    const provider: string
    const subject: string
    const email: string
    var createdAt: int

    constructor (userId: Id, provider: string, subject: string, email: string, id: Id, createdAt: int)
      ensures this.userId == userId && this.provider == provider && this.subject == subject && this.email == email
    {
      this.userId, this.provider, this.subject, this.email := userId, provider, subject, email;
      this.id, this.createdAt := id, createdAt;
    }
  }

  method CreateIdentityRow(tx: Transaction, identity: UserIdentity, id: Id, now: int) returns (r: Result<()>)
    requires tx.Open()
    modifies tx`view, tx`faulted, identity
    ensures identity.id == id && identity.createdAt == now
    ensures tx.faulted ==> r == Err(Fault)
    ensures !tx.faulted ==>
              var row := Identity(identity.userId, identity.provider, identity.subject, identity.email, now, None);
              var a := CreateIdentity(old(tx.view), id, row);
              tx.view == a.store && (r.Ok? <==> a.result.Ok?) && (r.Err? ==> a.result == Err(r.error))
  {
    identity.id := id;
    identity.createdAt := now;
    var ok := tx.Attempt();
    if !ok {
      return Err(Fault);
    }
    if identity.id in tx.view.identities {
      return Err(UniqueViolation);
    }
    var row := Identity(identity.userId, identity.provider, identity.subject, identity.email, identity.createdAt, None);
    tx.view := tx.view.(identities := tx.view.identities[identity.id := row]);
    return Ok(());
  }

  method Find(tx: Transaction, subject: string, provider: string) returns (r: Result<(Id, Identity)>)
    requires tx.Open() && OneRowPerSubject(tx.view.identities)
    modifies tx`faulted
    ensures tx.faulted ==> r == Err(Fault)
    ensures !tx.faulted ==>
              match FindIdentity(tx.view.identities, provider, subject)
              case Some(id) => id in tx.view.identities && r == Ok((id, tx.view.identities[id]))
              case None => r == Err(IdentityNotFound)
  {
    var ok := tx.Attempt();
    if !ok {
      return Err(Fault);
    }
    var rows := tx.view.identities;
    if id :| id in rows && rows[id].provider == provider && rows[id].subject == subject {
      FindSubjectIs(tx.view.identities, id, provider, subject);
      return Ok((id, tx.view.identities[id]));
    }
    FoundIdentity(tx.view.identities, provider, subject);
    return Err(IdentityNotFound);
  }

  /** Does not ask how many rows it changed. */
  method UpdateEmail(tx: Transaction, identityId: Id, email: string, now: int) returns (r: Result<()>)
    requires tx.Open()
    modifies tx`view, tx`faulted
    ensures r == if tx.faulted then Err(Fault) else Ok(())
    ensures r.Ok? ==> tx.view == UpdateIdentityEmail(old(tx.view), identityId, email, now)
    ensures r.Ok? && identityId in old(tx.view.identities) ==>
              tx.view.identities == old(tx.view.identities)[
                identityId := old(tx.view.identities)[identityId].(email := email, updatedAt := Some(now))]
  {
    var ok := tx.Attempt();
    if !ok {
      return Err(Fault);
    }
    if identityId in tx.view.identities {
      var row := tx.view.identities[identityId].(email := email, updatedAt := Some(now));
      tx.view := tx.view.(identities := tx.view.identities[identityId := row]);
    }
    return Ok(());
  }

  /** Finds the user of a claim or creates user and identity; see `Operations.Resolve`. */
  method FindOrCreateByOAuthIdentity(tx: Transaction, claim: Claim, userId: Id, identityId: Id, now: int)
    returns (r: Result<Id>)
    requires tx.Open() && Unambiguous(tx.view)
    modifies tx`view, tx`faulted
    ensures tx.faulted ==> r == Err(Fault)
    ensures !tx.faulted ==> r == Resolve(old(tx.view), claim, userId, identityId, now).result
    ensures r.Ok? ==> tx.view == Resolve(old(tx.view), claim, userId, identityId, now).store
  {
    var identity := Find(tx, claim.subject, claim.provider);
    if identity.Err? && identity.error != IdentityNotFound {
      return Err(identity.error);
    }
    if identity.Ok? {
      r := ResolveKnownIdentity(tx, identity.value.0, claim, userId, identityId, now);
    } else {
      r := ResolveNewIdentity(tx, claim, userId, identityId, now);
    }
  }

  method ResolveKnownIdentity(tx: Transaction, id: Id, claim: Claim, ghost userId: Id, ghost identityId: Id, now: int)
    returns (r: Result<Id>)
    requires tx.Open() && Unambiguous(tx.view) && id in tx.view.identities
    requires FindIdentity(tx.view.identities, claim.provider, claim.subject) == Some(id)
    modifies tx`view, tx`faulted
    ensures tx.faulted ==> r == Err(Fault)
    ensures !tx.faulted ==> r == Resolve(old(tx.view), claim, userId, identityId, now).result
    ensures r.Ok? ==> tx.view == Resolve(old(tx.view), claim, userId, identityId, now).store
  {
    var identity := tx.view.identities[id];
    if identity.email != claim.email {
      var existing := GetByEmail(tx, claim.email);
      if existing.Err? && existing.error != UserNotFound {
        return Err(existing.error);
      }
      if existing.Ok? && existing.value.0 != identity.userId {
        return Err(EmailExists);
      }
      var updated := UpdateEmail(tx, identity.userId, claim.email, now);
      if updated.Err? {
        return Err(updated.error);
      }
      var user := Update(tx, identity.userId, NO_PATCH.(email := Some(claim.email)), now);
      return IdOf(user);
    }
    var user := GetById(tx, identity.userId);
    return IdOf(user);
  }

  method ResolveNewIdentity(tx: Transaction, claim: Claim, userId: Id, identityId: Id, now: int) returns (r: Result<Id>)
    requires tx.Open()
    requires FindIdentity(tx.view.identities, claim.provider, claim.subject).None?
    modifies tx`view, tx`faulted
    ensures tx.faulted ==> r == Err(Fault)
    ensures !tx.faulted ==> r == Resolve(old(tx.view), claim, userId, identityId, now).result
    ensures r.Ok? ==> tx.view == Resolve(old(tx.view), claim, userId, identityId, now).store
  {
    var created := Create(tx, userId, claim.name, claim.email, true, None, now);
    if created.Err? {
      return Err(created.error);
    }
    var identity := new UserIdentity(created.value, claim.provider, claim.subject, claim.email, created.value, now);
    var bound := CreateIdentityRow(tx, identity, identityId, now);
    if bound.Err? {
      return Err(bound.error);
    }
    return created;
  }

  // ---------------------------------------------------------------- verification codes

  method CreateToken(tx: Transaction, id: Id, code: string, userId: Id, now: int) returns (r: Result<Id>)
    requires tx.Open()
    modifies tx`view, tx`faulted
    ensures tx.faulted ==> r == Err(Fault)
    ensures !tx.faulted ==> Outcome(tx.view, r) == CreateCode(old(tx.view), id, userId, code, now)
    ensures r.Ok? ==>
              tx.view == old(tx.view).(codes := old(tx.view.codes)[id := Code(userId, Sha256(code), now + 180, now)])
  {
    var ok := tx.Attempt();
    if !ok {
      return Err(Fault);
    }
    if id in tx.view.codes {
      return Err(UniqueViolation);
    }
    tx.view := tx.view.(codes := tx.view.codes[id := Code(userId, Sha256(code), now + CODE_LIFETIME, now)]);
    return Ok(id);
  }

  method FindToken(tx: Transaction, code: string) returns (r: Result<(Id, Code)>)
    requires tx.Open() && OneRowPerHash(tx.view.codes)
    modifies tx`faulted
    ensures tx.faulted ==> r == Err(Fault)
    ensures !tx.faulted ==>
              match FindCode(tx.view.codes, Sha256(code))
              case Some(id) => id in tx.view.codes && r == Ok((id, tx.view.codes[id]))
              case None => r == Err(NoRows)
  {
    var ok := tx.Attempt();
    if !ok {
      return Err(Fault);
    }
    var hash := Sha256(code);
    if id :| id in tx.view.codes && tx.view.codes[id].hash == hash {
      FindCodeIs(tx.view.codes, id, hash);
      return Ok((id, tx.view.codes[id]));
    }
    FoundCode(tx.view.codes, hash);
    return Err(NoRows);
  }

  method DeleteToken(tx: Transaction, id: Id) returns (r: Result<()>)
    requires tx.Open()
    modifies tx`view, tx`faulted
    ensures r == if tx.faulted then Err(Fault) else Ok(())
    ensures r.Ok? ==> tx.view == old(tx.view).(codes := old(tx.view.codes) - {id})
  {
    var ok := tx.Attempt();
    if !ok {
      return Err(Fault);
    }
    tx.view := tx.view.(codes := tx.view.codes - {id});
    return Ok(());
  }

  method DeleteByUserId(tx: Transaction, userId: Id) returns (r: Result<()>)
    requires tx.Open()
    modifies tx`view, tx`faulted
    ensures r == if tx.faulted then Err(Fault) else Ok(())
    ensures r.Ok? ==> tx.view == old(tx.view).(codes := CodesWithout(old(tx.view.codes), userId))
  {
    var ok := tx.Attempt();
    if !ok {
      return Err(Fault);
    }
    var codes := tx.view.codes;
    tx.view := tx.view.(codes := map id | id in codes && codes[id].userId != userId :: codes[id]);
    return Ok(());
  }

  /** Any failure to find the code, whatever its reason, is answered as an invalid code. */
  method VerifyUser(tx: Transaction, code: string, now: int) returns (r: Result<Reply>)
    requires tx.Open() && Unambiguous(tx.view)
    modifies tx`view, tx`faulted
    ensures tx.faulted ==> r == Err(Fault) || r == Err(InvalidCode)
    ensures !tx.faulted ==> r == Verify(old(tx.view), code, now).result
    ensures r.Ok? ==> tx.view == Verify(old(tx.view), code, now).store
  {
    var token := FindToken(tx, code);
    if token.Err? {
      return Err(InvalidCode);
    }
    var deleted := DeleteToken(tx, token.value.0);
    if deleted.Err? {
      return Err(deleted.error);
    }
    var user := Update(tx, token.value.1.userId, NO_PATCH.(emailVerified := Some(true)), now);
    if user.Err? {
      return Err(user.error);
    }
    return Ok(Account(user.value.0));
  }
}
