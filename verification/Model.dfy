/**
 The four tables of the service's store and the values that pass through it.

 Ids are primary keys, so a table is a map. Digests are free terms: two digests are equal only if
 the strings they were computed from are, which is the assumption made on the keyed MAC and on the
 hash. Times are seconds; the service's clock, ids, secrets and codes are inputs.
 */
module Model {
  import opened Wrappers
  import opened Base64Url
  import opened Uuids

  type Id = Uuid

  /** A keyed MAC under the service's one refresh-token secret, or a plain hash. */
  datatype Digest = Hmac(text: string) | Sha256(text: string)

  /** A salted password hash; comparing it succeeds for this password only. */
  datatype PasswordHash = Bcrypt(password: string)

  datatype User = User(
    name: string,
    email: string,
    emailVerified: bool,
    passwordHash: Option<PasswordHash>,
    createdAt: int,
    updatedAt: Option<int>)

  datatype Identity = Identity(
    userId: Id,
    provider: string,
    subject: string,
    email: string,
    createdAt: int,
    updatedAt: Option<int>)

  /** An outstanding e-mail verification code, stored by its hash. */
  datatype Code = Code(userId: Id, hash: Digest, expiresAt: int, createdAt: int)

  /** A refresh token, stored by the MAC of its raw form. */
  datatype Token = Token(userId: Id, hash: Digest, expiresAt: int, revokedAt: Option<int>)

  datatype Store = Store(
    users: map<Id, User>,
    identities: map<Id, Identity>,
    codes: map<Id, Code>,
    tokens: map<Id, Token>)

  const EMPTY := Store(map[], map[], map[], map[])

  datatype UserPatch = UserPatch(
    displayName: Option<string>,
    email: Option<string>,
    emailVerified: Option<bool>,
    passwordHash: Option<PasswordHash>)

  const NO_PATCH := UserPatch(None, None, None, None)

  /** What the identity provider vouches for. */
  datatype Claim = Claim(provider: string, subject: string, name: string, email: string)

  /** The inputs of minting one refresh token: generated id, random secret, clock. */
  datatype Mint = Mint(id: Id, secret: seq<Byte>, issuedAt: int)

  const TOKEN_LIFETIME := 30 * 24 * 60 * 60
  const CODE_LIFETIME := 180

  /** `Fault` stands for every failure the store's contents do not explain. */
  datatype Error =
    | Fault
    | MalformedToken | UnreadableId | TokenNotFound | InvalidToken | TokenRevoked | TokenExpired
    | NoRows | UniqueViolation | EmailExists | IdentityNotFound
    | WrongCredentials | EmailNotVerified | UserNotFound | InvalidCode

  datatype Result<+T> = Ok(value: T) | Err(error: Error)

  /** What a request delivers: a token bundle, an account, a mailed code, or nothing. */
  datatype Reply =
    | Bundle(userId: Id, raw: string)
    | Account(userId: Id)
    | Sent(userId: Id)
    | Nothing

  /** A result together with the store it leaves. */
  datatype Outcome<+T> = Outcome(store: Store, result: Result<T>)
}
