/**
 What each write request of the service does to the committed store when nothing else runs and no
 statement fails: one function per handler, built from one function per service call.

 An operation that answers with an error leaves the store as it was, because its transaction is
 rolled back.
 */
module Operations {
  import opened Wrappers
  import opened Uuids
  import opened RawTokens
  import opened Model

  function OrRollBack<T>(before: Store, after: Outcome<T>): Outcome<T> {
    if after.result.Err? then Outcome(before, after.result) else after
  }

  // ---------------------------------------------------------------- refresh tokens

  /** The row a presented raw token stands for: parse its id, read the row, compare the MACs. */
  function Lookup(s: Store, raw: string): Result<(Id, Token)> {
    match ExtractId(raw)
    case None => Err(MalformedToken)
    case Some(text) =>
      match DbParse(text)
      case None => Err(UnreadableId)
      case Some(id) =>
        if id !in s.tokens then Err(TokenNotFound)
        else if Hmac(raw) != s.tokens[id].hash then Err(InvalidToken)
        else Ok((id, s.tokens[id]))
  }

  function MintedRaw(mint: Mint): string {
    Print(mint.id, mint.secret)
  }

  /** What is fixed about a token when it is minted. */
  datatype Origin = Origin(id: Id, userId: Id, issuedAt: int)

  function RowOf(raw: string, o: Origin, revokedAt: Option<int>): Token {
    Token(o.userId, Hmac(raw), o.issuedAt + TOKEN_LIFETIME, revokedAt)
  }

  function InsertToken(s: Store, raw: string, o: Origin): Outcome<Reply> {
    if o.id in s.tokens then Outcome(s, Err(UniqueViolation))
    else Outcome(s.(tokens := s.tokens[o.id := RowOf(raw, o, None)]), Ok(Bundle(o.userId, raw)))
  }

  function GenerateBundle(s: Store, userId: Id, mint: Mint): Outcome<Reply> {
    InsertToken(s, MintedRaw(mint), Origin(mint.id, userId, mint.issuedAt))
  }

  function RevokeRow(s: Store, id: Id, at: int): Store
    requires id in s.tokens
  {
    s.(tokens := s.tokens[id := s.tokens[id].(revokedAt := Some(at))])
  }

  /** Revocation does not ask whether the row is revoked already. */
  function Revoke(s: Store, raw: string, at: int): Outcome<Reply> {
    match Lookup(s, raw)
    case Err(e) => Outcome(s, Err(e))
    case Ok((id, _)) => Outcome(RevokeRow(s, id, at), Ok(Nothing))
  }

  /** Redeems `raw`: `startedAt` is the transaction's start, which `now()` means in the database. */
  function Refresh(s: Store, raw: string, startedAt: int, checkedAt: int, mint: Mint): Outcome<Reply> {
    match Lookup(s, raw)
    case Err(e) => Outcome(s, Err(e))
    case Ok((id, row)) =>
      if row.userId !in s.users then Outcome(s, Err(NoRows))
      else if row.revokedAt.Some? then Outcome(s, Err(TokenRevoked))
      else if checkedAt > row.expiresAt then Outcome(s, Err(TokenExpired))
      else OrRollBack(s, GenerateBundle(RevokeRow(s, id, startedAt), row.userId, mint))
  }

  // ---------------------------------------------------------------- users

  ghost predicate HasEmail(users: map<Id, User>, id: Id, email: string) {
    id in users && users[id].email == email
  }

  /** The user with an e-mail address; there is at most one, the column is unique. */
  ghost function FindByEmail(users: map<Id, User>, email: string): Option<Id> {
    if exists id :: HasEmail(users, id, email) then
      var id :| HasEmail(users, id, email);
      Some(id)
    else None
  }

  ghost predicate EmailTaken(users: map<Id, User>, email: string, except: Option<Id>) {
    exists id :: HasEmail(users, id, email) && Some(id) != except
  }

  ghost function CreateUser(s: Store, id: Id, user: User): Outcome<Id> {
    if id in s.users || EmailTaken(s.users, user.email, None) then Outcome(s, Err(EmailExists))
    else Outcome(s.(users := s.users[id := user]), Ok(id))
  }

  function Patched(user: User, patch: UserPatch, now: int): User {
    if patch == NO_PATCH then user
    else User(
      if patch.displayName.Some? then patch.displayName.value else user.name,
      if patch.email.Some? then patch.email.value else user.email,
      if patch.emailVerified.Some? then patch.emailVerified.value else user.emailVerified,
      if patch.passwordHash.Some? then patch.passwordHash else user.passwordHash,
      user.createdAt,
      Some(now))
  }

  ghost function UpdateUser(s: Store, id: Id, patch: UserPatch, now: int): Outcome<Id> {
    if id !in s.users then Outcome(s, Err(NoRows))
    else if patch.email.Some? && EmailTaken(s.users, patch.email.value, Some(id)) then Outcome(s, Err(UniqueViolation))
    else Outcome(s.(users := s.users[id := Patched(s.users[id], patch, now)]), Ok(id))
  }

  predicate Matches(hash: Option<PasswordHash>, password: string) {
    hash == Some(Bcrypt(password))
  }

  /** The guards of a password login, in the order the service applies them to the row it read. */
  ghost function Admit(users: map<Id, User>, email: string, password: string): Result<Id> {
    match FindByEmail(users, email)
    case None => Err(WrongCredentials)
    case Some(id) =>
      if users[id].passwordHash.None? then Err(WrongCredentials)
      else if !users[id].emailVerified then Err(EmailNotVerified)
      else if !Matches(users[id].passwordHash, password) then Err(WrongCredentials)
      else Ok(id)
  }

  ghost function Login(s: Store, email: string, password: string, mint: Mint): Outcome<Reply> {
    match Admit(s.users, email, password)
    case Err(e) => Outcome(s, Err(e))
    case Ok(id) => GenerateBundle(s, id, mint)
  }

  // ---------------------------------------------------------------- verification codes

  function CreateCode(s: Store, id: Id, userId: Id, code: string, now: int): Outcome<Id> {
    if id in s.codes then Outcome(s, Err(UniqueViolation))
    else Outcome(s.(codes := s.codes[id := Code(userId, Sha256(code), now + CODE_LIFETIME, now)]), Ok(id))
  }

  ghost predicate HasHash(codes: map<Id, Code>, id: Id, hash: Digest) {
    id in codes && codes[id].hash == hash
  }

  ghost function FindCode(codes: map<Id, Code>, hash: Digest): Option<Id> {
    if exists id :: HasHash(codes, id, hash) then
      var id :| HasHash(codes, id, hash);
      Some(id)
    else None
  }

  function CodesWithout(codes: map<Id, Code>, userId: Id): map<Id, Code> {
    map id | id in codes && codes[id].userId != userId :: codes[id]
  }

  ghost function Register(s: Store, name: string, email: string, password: string,
                          userId: Id, codeId: Id, code: string, now: int): Outcome<Reply>
  {
    var created := CreateUser(s, userId, User(name, email, false, Some(Bcrypt(password)), now, None));
    if created.result.Err? then Outcome(s, Err(created.result.error))
    else
      var coded := CreateCode(created.store, codeId, userId, code, now);
      if coded.result.Err? then Outcome(s, Err(coded.result.error))
      else Outcome(coded.store, Ok(Account(userId)))
  }

  /** Consumes a code. Its expiry time is stored but never compared. */
  ghost function Verify(s: Store, code: string, now: int): Outcome<Reply> {
    match FindCode(s.codes, Sha256(code))
    case None => Outcome(s, Err(InvalidCode))
    case Some(id) =>
      var userId := s.codes[id].userId;
      var updated := UpdateUser(s.(codes := s.codes - {id}), userId, NO_PATCH.(emailVerified := Some(true)), now);
      if updated.result.Err? then Outcome(s, Err(updated.result.error))
      else Outcome(updated.store, Ok(Account(userId)))
  }

  ghost function Resend(s: Store, email: string, codeId: Id, code: string, now: int): Outcome<Reply> {
    match FindByEmail(s.users, email)
    case None => Outcome(s, Ok(Nothing))
    case Some(userId) =>
      if s.users[userId].emailVerified then Outcome(s, Ok(Nothing))
      else
        var coded := CreateCode(s.(codes := CodesWithout(s.codes, userId)), codeId, userId, code, now);
        if coded.result.Err? then Outcome(s, Err(coded.result.error))
        else Outcome(coded.store, Ok(Sent(userId)))
  }

  // ---------------------------------------------------------------- identities

  ghost predicate HasSubject(identities: map<Id, Identity>, id: Id, provider: string, subject: string) {
    id in identities && identities[id].provider == provider && identities[id].subject == subject
  }

  ghost function FindIdentity(identities: map<Id, Identity>, provider: string, subject: string): Option<Id> {
    if exists id :: HasSubject(identities, id, provider, subject) then
      var id :| HasSubject(identities, id, provider, subject);
      Some(id)
    else None
  }

  function CreateIdentity(s: Store, id: Id, identity: Identity): Outcome<Id> {
    if id in s.identities then Outcome(s, Err(UniqueViolation))
    else Outcome(s.(identities := s.identities[id := identity]), Ok(id))
  }

  /** `UPDATE identities ... WHERE id = ...`: no row, no change, and no error. */
  function UpdateIdentityEmail(s: Store, id: Id, email: string, now: int): Store {
    if id !in s.identities then s
    else s.(identities := s.identities[id := s.identities[id].(email := email, updatedAt := Some(now))])
  }

  /**
   Finds or creates the user of a claim. The e-mail update passes the user's id where the
   identity's id belongs, as the service does.
   */
  ghost function Resolve(s: Store, claim: Claim, userId: Id, identityId: Id, now: int): Outcome<Id> {
    match FindIdentity(s.identities, claim.provider, claim.subject)
    case Some(id) =>
      var owner := s.identities[id].userId;
      if s.identities[id].email == claim.email then
        Outcome(s, if owner in s.users then Ok(owner) else Err(NoRows))
      else
        var holder := FindByEmail(s.users, claim.email);
        if holder.Some? && holder.value != owner then Outcome(s, Err(EmailExists))
        else OrRollBack(s, UpdateUser(UpdateIdentityEmail(s, owner, claim.email, now), owner,
                                      NO_PATCH.(email := Some(claim.email)), now))
    case None =>
      var created := CreateUser(s, userId, User(claim.name, claim.email, true, None, now, None));
      if created.result.Err? then created
      else
        var bound := CreateIdentity(created.store, identityId,
                                    Identity(userId, claim.provider, claim.subject, claim.email, now, None));
        if bound.result.Err? then Outcome(s, bound.result) else Outcome(bound.store, Ok(userId))
  }

  ghost function Callback(s: Store, claim: Claim, userId: Id, identityId: Id, now: int, mint: Mint): Outcome<Reply> {
    var resolved := Resolve(s, claim, userId, identityId, now);
    match resolved.result
    case Err(e) => Outcome(s, Err(e))
    case Ok(owner) => OrRollBack(s, GenerateBundle(resolved.store, owner, mint))
  }

  // ---------------------------------------------------------------- all of them

  datatype Op =
    | OpRegister(name: string, email: string, password: string, userId: Id, codeId: Id, code: string, now: int)
    | OpVerify(code: string, now: int)
    | OpResend(email: string, codeId: Id, code: string, now: int)
    | OpLogin(email: string, password: string, mint: Mint)
    | OpCallback(claim: Claim, userId: Id, identityId: Id, now: int, mint: Mint)
    | OpRefresh(raw: string, startedAt: int, checkedAt: int, mint: Mint)
    | OpLogout(raw: string, startedAt: int)

  ghost function Apply(s: Store, op: Op): Outcome<Reply> {
    match op
    case OpRegister(name, email, password, userId, codeId, code, now) =>
      Register(s, name, email, password, userId, codeId, code, now)
    case OpVerify(code, now) => Verify(s, code, now)
    case OpResend(email, codeId, code, now) => Resend(s, email, codeId, code, now)
    case OpLogin(email, password, mint) => Login(s, email, password, mint)
    case OpCallback(claim, userId, identityId, now, mint) => Callback(s, claim, userId, identityId, now, mint)
    case OpRefresh(raw, startedAt, checkedAt, mint) => Refresh(s, raw, startedAt, checkedAt, mint)
    case OpLogout(raw, startedAt) => Revoke(s, raw, startedAt)
  }

  /** A request and the answer it got. */
  datatype Event = Event(op: Op, result: Result<Reply>)

  /** The store after a history of requests, served one after the other. */
  ghost function After(start: Store, log: seq<Event>): Store {
    if log == [] then start else Apply(After(start, log[..|log| - 1]), log[|log| - 1].op).store
  }

  /** Every answer in the history is the one its request gets in that order. */
  ghost predicate Faithful(start: Store, log: seq<Event>) {
    log == [] ||
    (var last := |log| - 1;
     Faithful(start, log[..last]) && Apply(After(start, log[..last]), log[last].op).result == log[last].result)
  }

  lemma {:induction false} FaithfulPrefix(start: Store, log: seq<Event>, n: nat)
    requires Faithful(start, log) && n <= |log|
    ensures Faithful(start, log[..n])
  {
    if n == |log| {
      assert log[..n] == log;
    } else {
      var init := log[..|log| - 1];
      FaithfulPrefix(start, init, n);
      assert init[..n] == log[..n];
    }
  }

  /** The i-th request ran on the store its predecessors left. */
  lemma FaithfulAt(start: Store, log: seq<Event>, i: nat)
    requires Faithful(start, log) && i < |log|
    ensures Faithful(start, log[..i])
    ensures Apply(After(start, log[..i]), log[i].op) == Outcome(After(start, log[..i + 1]), log[i].result)
  {
    FaithfulPrefix(start, log, i + 1);
    assert log[..i + 1][..i] == log[..i];
  }
}
