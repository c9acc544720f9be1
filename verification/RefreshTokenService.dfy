/**
 The refresh-token repository and service: statement by statement inside one transaction. Each
 method does what its counterpart in `Operations` does to the transaction's view, or fails because
 something outside the tables failed.
 */
module RefreshTokenService {
  import opened Wrappers
  import opened Base64Url
  import opened Uuids
  import opened RawTokens
  import opened Model
  import opened Operations
  import opened Persistence

  // ---------------------------------------------------------------- the repository

  method CreateRow(tx: Transaction, id: Id, row: Token) returns (r: Result<()>)
    requires tx.Open()
    modifies tx`view, tx`faulted
    ensures tx.faulted ==> r == Err(Fault)
    ensures r.Ok? ==> id !in old(tx.view.tokens)
                      && tx.view == old(tx.view).(tokens := old(tx.view.tokens)[id := row])
    ensures r.Err? ==> tx.view == old(tx.view)
    ensures r.Err? && !tx.faulted ==> r.error == UniqueViolation && id in old(tx.view.tokens)
  {
    var ok := tx.Attempt();
    if !ok {
      return Err(Fault);
    }
    if id in tx.view.tokens {
      return Err(UniqueViolation);
    }
    tx.view := tx.view.(tokens := tx.view.tokens[id := row]);
    return Ok(());
  }

  /** `UPDATE ... SET revoked_at = now() WHERE id = $1`, refused if it affected no row. */
  method RevokeById(tx: Transaction, id: Id) returns (r: Result<()>)
    requires tx.Open()
    modifies tx`view, tx`faulted
    ensures tx.faulted ==> r == Err(Fault)
    ensures r.Ok? ==> id in old(tx.view.tokens) && tx.view == RevokeRow(old(tx.view), id, tx.startedAt)
    ensures r.Err? ==> tx.view == old(tx.view)
    ensures r.Err? && !tx.faulted ==> r.error == TokenNotFound && id !in old(tx.view.tokens)
  {
    var ok := tx.Attempt();
    if !ok {
      return Err(Fault);
    }
    var rowsAffected := 0;
    if id in tx.view.tokens {
      tx.view := tx.view.(tokens := tx.view.tokens[id := tx.view.tokens[id].(revokedAt := Some(tx.startedAt))]);
      rowsAffected := 1;
    }
    if rowsAffected == 0 {
      return Err(TokenNotFound);
    }
    return Ok(());
  }

  /** `SELECT ... WHERE id = $1 FOR UPDATE`: the database reads the text as a uuid itself. */
  method GetById(tx: Transaction, text: string) returns (r: Result<(Id, Token)>)
    requires tx.Open()
    modifies tx`faulted
    ensures tx.faulted ==> r == Err(Fault)
    ensures r.Ok? ==> DbParse(text) == Some(r.value.0)
                      && r.value.0 in tx.view.tokens && r.value.1 == tx.view.tokens[r.value.0]
    ensures r.Err? && !tx.faulted ==>
              if DbParse(text).None? then r.error == UnreadableId
              else r.error == NoRows && DbParse(text).value !in tx.view.tokens
  {
    var ok := tx.Attempt();
    if !ok {
      return Err(Fault);
    }
    match DbParse(text)
    case None => return Err(UnreadableId);
    case Some(id) =>
      if id !in tx.view.tokens {
        return Err(NoRows);
      }
      return Ok((id, tx.view.tokens[id]));
  }

  // ---------------------------------------------------------------- the service

  const SECRET_BYTES := 32

  /** Fills the buffer with what the random source yields. */
  method Read(tx: Transaction, buffer: array<Byte>, random: seq<Byte>) returns (ok: bool)
    requires tx.Open() && |random| == buffer.Length
    modifies buffer, tx`faulted
    ensures ok <==> !tx.faulted
    ensures ok ==> buffer[..] == random
  {
    ok := tx.Attempt();
    if !ok {
      return;
    }
    forall i | 0 <= i < buffer.Length {
      buffer[i] := random[i];
    }
  }

  method GenerateForUser(tx: Transaction, userId: Id, mint: Mint) returns (r: Result<Reply>)
    requires tx.Open() && |mint.secret| == SECRET_BYTES
    modifies tx`view, tx`faulted
    ensures tx.faulted ==> r == Err(Fault)
    ensures !tx.faulted ==> Outcome(tx.view, r) == GenerateBundle(old(tx.view), userId, mint)
    ensures r.Ok? ==> r.value == Bundle(userId, Print(mint.id, mint.secret)) && |r.value.raw| == 84
  {
    PrintedForm(mint.id, mint.secret);
    var secretBytes := new Byte[SECRET_BYTES](_ => 0);
    var filled := Read(tx, secretBytes, mint.secret);
    if !filled {
      return Err(Fault);
    }
    var secret := EncodeToString(secretBytes[..]);
    r := Save(tx, Format(Text(mint.id), secret), Origin(mint.id, userId, mint.issuedAt));
  }

  /** The row of a raw token: its id, its MAC, thirty days. */
  method Save(tx: Transaction, rawToken: string, o: Origin) returns (r: Result<Reply>)
    requires tx.Open()
    modifies tx`view, tx`faulted
    ensures tx.faulted ==> r == Err(Fault)
    ensures !tx.faulted ==> Outcome(tx.view, r) == InsertToken(old(tx.view), rawToken, o)
  {
    var created := CreateRow(tx, o.id, Token(o.userId, Hmac(rawToken), o.issuedAt + TOKEN_LIFETIME, None));
    if created.Err? {
      return Err(created.error);
    }
    return Ok(Bundle(o.userId, rawToken));
  }

  /** Looks a raw token up; in PostgreSQL this locks its row, which `RotationSteps` is about. */
  method Get(tx: Transaction, raw: string) returns (r: Result<(Id, Token)>)
    requires tx.Open()
    modifies tx`faulted
    ensures tx.faulted ==> r == Err(Fault)
    ensures !tx.faulted ==> r == Lookup(tx.view, raw)
  {
    var id := ExtractId(raw);
    if id.None? {
      return Err(MalformedToken);
    }
    var found := GetById(tx, id.value);
    if found.Err? {
      return Err(if found.error == NoRows then TokenNotFound else found.error);
    }
    if Hmac(raw) != found.value.1.hash {
      return Err(InvalidToken);
    }
    return found;
  }

  method RevokeRaw(tx: Transaction, raw: string) returns (r: Result<Reply>)
    requires tx.Open()
    modifies tx`view, tx`faulted
    ensures tx.faulted ==> r == Err(Fault)
    ensures !tx.faulted ==> Outcome(tx.view, r) == Revoke(old(tx.view), raw, tx.startedAt)
  {
    var token := Get(tx, raw);
    if token.Err? {
      return Err(token.error);
    }
    var revoked := RevokeById(tx, token.value.0);
    if revoked.Err? {
      return Err(revoked.error);
    }
    return Ok(Nothing);
  }
}
