/** Issuing and rotating token bundles, and the password login that ends in issuing one. */
module AuthService {
  import opened Model
  import opened Operations
  import opened Persistence
  import opened Accounts
  import RefreshTokenService
  import UserService

  /** The access token comes first; generating it can fail but does not touch the tables. */
  method GenerateBundle(tx: Transaction, userId: Id, mint: Mint) returns (r: Result<Reply>)
    requires tx.Open() && |mint.secret| == RefreshTokenService.SECRET_BYTES
    modifies tx`view, tx`faulted
    ensures tx.faulted ==> r == Err(Fault)
    ensures !tx.faulted ==> Outcome(tx.view, r) == Operations.GenerateBundle(old(tx.view), userId, mint)
  {
    var ok := tx.Attempt();
    if !ok {
      return Err(Fault);
    }
    r := RefreshTokenService.GenerateForUser(tx, userId, mint);
  }

  /** Look up, find the owner, refuse revoked and expired tokens, revoke, issue the successor. */
  method Refresh(tx: Transaction, raw: string, checkedAt: int, mint: Mint) returns (r: Result<Reply>)
    requires tx.Open() && |mint.secret| == RefreshTokenService.SECRET_BYTES
    modifies tx`view, tx`faulted
    ensures tx.faulted ==> r == Err(Fault)
    ensures !tx.faulted ==> r == Operations.Refresh(old(tx.view), raw, tx.startedAt, checkedAt, mint).result
    ensures r.Ok? ==> tx.view == Operations.Refresh(old(tx.view), raw, tx.startedAt, checkedAt, mint).store
  {
    var token := RefreshTokenService.Get(tx, raw);
    if token.Err? {
      return Err(token.error);
    }
    var row := token.value.1;
    var owner := UserService.GetById(tx, row.userId);
    if owner.Err? {
      return Err(owner.error);
    }
    if row.revokedAt.Some? {
      return Err(TokenRevoked);
    }
    if checkedAt > row.expiresAt {
      return Err(TokenExpired);
    }
    var revoked := RefreshTokenService.RevokeRaw(tx, raw);
    if revoked.Err? {
      return Err(revoked.error);
    }
    r := GenerateBundle(tx, row.userId, mint);
  }

  /** Whatever keeps the user from being found is answered as wrong credentials. */
  method Login(tx: Transaction, email: string, password: string, mint: Mint) returns (r: Result<Reply>)
    requires tx.Open() && UniqueEmails(tx.view.users) && |mint.secret| == RefreshTokenService.SECRET_BYTES
    modifies tx`view, tx`faulted
    ensures tx.faulted ==> r == Err(Fault) || r == Err(WrongCredentials)
    ensures !tx.faulted ==> Outcome(tx.view, r) == Operations.Login(old(tx.view), email, password, mint)
  {
    var found := UserService.GetByEmail(tx, email);
    if found.Err? {
      return Err(WrongCredentials);
    }
    var (id, user) := found.value;
    if user.passwordHash.None? {
      return Err(WrongCredentials);
    }
    if !user.emailVerified {
      return Err(EmailNotVerified);
    }
    if !Matches(user.passwordHash, password) {
      return Err(WrongCredentials);
    }
    r := GenerateBundle(tx, id, mint);
  }
}
