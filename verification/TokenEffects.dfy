/**
 The four things a request can do to the refresh-token table, and the proof that the requests do
 nothing else. Everything said later about histories of tokens is said about these effects.
 */
module TokenEffects {
  import opened Wrappers
  import opened RawTokens
  import opened Model
  import opened Operations

  /** Nothing; a token minted; a token redeemed for a new one; a token logged out. */
  datatype Effect =
    | Same
    | Rooted(raw: string, o: Origin)
    | Rotated(spent: string, parent: Id, at: int, raw: string, o: Origin)
    | Dropped(spent: string, id: Id, at: int)

  function Revoked(tokens: map<Id, Token>, id: Id, at: int): map<Id, Token>
    requires id in tokens
  {
    tokens[id := tokens[id].(revokedAt := Some(at))]
  }

  /** When an effect can happen: minted ids are new, a redeemed token is live, owners are kept. */
  ghost predicate Allowed(tokens: map<Id, Token>, effect: Effect) {
    match effect
    case Same => true
    case Rooted(raw, o) => o.id !in tokens
    case Rotated(spent, parent, at, raw, o) =>
      && parent in tokens && tokens[parent].hash == Hmac(spent) && tokens[parent].revokedAt.None?
      && tokens[parent].userId == o.userId && o.id !in tokens
    case Dropped(spent, id, at) => id in tokens && tokens[id].hash == Hmac(spent)
  }

  ghost function Affect(tokens: map<Id, Token>, effect: Effect): map<Id, Token>
    requires Allowed(tokens, effect)
  {
    match effect
    case Same => tokens
    case Rooted(raw, o) => tokens[o.id := RowOf(raw, o, None)]
    case Rotated(spent, parent, at, raw, o) => Revoked(tokens, parent, at)[o.id := RowOf(raw, o, None)]
    case Dropped(spent, id, at) => Revoked(tokens, id, at)
  }

  function OriginOf(mint: Mint, reply: Reply): Origin
    requires reply.Bundle?
  {
    Origin(mint.id, reply.userId, mint.issuedAt)
  }

  /** The effect of a request that was answered so on the store `s`. */
  function EffectOf(s: Store, e: Event): Effect {
    if e.result.Err? then Same
    else if (e.op.OpLogin? || e.op.OpCallback?) && e.result.value.Bundle? then
      Rooted(e.result.value.raw, OriginOf(e.op.mint, e.result.value))
    else if e.op.OpRefresh? && e.result.value.Bundle? && Lookup(s, e.op.raw).Ok? then
      Rotated(e.op.raw, Lookup(s, e.op.raw).value.0, e.op.startedAt, e.result.value.raw,
              OriginOf(e.op.mint, e.result.value))
    else if e.op.OpLogout? && Lookup(s, e.op.raw).Ok? then
      Dropped(e.op.raw, Lookup(s, e.op.raw).value.0, e.op.startedAt)
    else Same
  }

  lemma LookupFinds(s: Store, raw: string)
    requires Lookup(s, raw).Ok?
    ensures var (id, row) := Lookup(s, raw).value;
            KeyOf(raw) == Some(id) && id in s.tokens && row == s.tokens[id] && row.hash == Hmac(raw)
  {
  }

  /** The converse: a row under the token's key with the token's MAC is what the lookup finds. */
  lemma LookupOf(s: Store, raw: string, id: Id)
    requires KeyOf(raw) == Some(id) && id in s.tokens && s.tokens[id].hash == Hmac(raw)
    ensures Lookup(s, raw) == Ok((id, s.tokens[id]))
  {
  }

  lemma InsertEffect(s: Store, raw: string, o: Origin)
    requires InsertToken(s, raw, o).result.Ok?
    ensures o.id !in s.tokens && InsertToken(s, raw, o).result.value == Bundle(o.userId, raw)
    ensures InsertToken(s, raw, o).store == s.(tokens := s.tokens[o.id := RowOf(raw, o, None)])
  {
  }

  lemma BundleEffect(s: Store, userId: Id, mint: Mint)
    requires GenerateBundle(s, userId, mint).result.Ok?
    ensures mint.id !in s.tokens && GenerateBundle(s, userId, mint).result.value == Bundle(userId, MintedRaw(mint))
    ensures GenerateBundle(s, userId, mint).store.tokens
         == s.tokens[mint.id := RowOf(MintedRaw(mint), Origin(mint.id, userId, mint.issuedAt), None)]
    ensures GenerateBundle(s, userId, mint).store.users == s.users
  {
    InsertEffect(s, MintedRaw(mint), Origin(mint.id, userId, mint.issuedAt));
  }

  lemma MintedKey(mint: Mint)
    ensures KeyOf(MintedRaw(mint)) == Some(mint.id)
  {
    KeyOfPrint(mint.id, mint.secret);
  }

  lemma RefreshEffect(s: Store, raw: string, startedAt: int, checkedAt: int, mint: Mint)
    requires Refresh(s, raw, startedAt, checkedAt, mint).result.Ok?
    ensures var a := Refresh(s, raw, startedAt, checkedAt, mint);
            && Lookup(s, raw).Ok?
            && var (id, row) := Lookup(s, raw).value;
            && id in s.tokens && row == s.tokens[id] && row.hash == Hmac(raw)
            && row.revokedAt.None? && row.userId in s.users && checkedAt <= row.expiresAt
            && a == GenerateBundle(RevokeRow(s, id, startedAt), row.userId, mint)
  {
    LookupFinds(s, raw);
  }

  lemma RefusedRefresh(s: Store, raw: string, startedAt: int, checkedAt: int, mint: Mint)
    requires Refresh(s, raw, startedAt, checkedAt, mint).result.Err?
    ensures Refresh(s, raw, startedAt, checkedAt, mint).store == s
  {
  }

  /** A callback resolves an account, then mints; resolving keeps the table and the owner exists. */
  lemma ResolveEffect(s: Store, claim: Claim, userId: Id, identityId: Id, now: int)
    ensures var r := Resolve(s, claim, userId, identityId, now);
            r.store.tokens == s.tokens && s.users.Keys <= r.store.users.Keys
            && (r.result.Ok? ==> r.result.value in r.store.users)
  {
  }

  lemma CallbackEffect(s: Store, claim: Claim, userId: Id, identityId: Id, now: int, mint: Mint)
    requires Callback(s, claim, userId, identityId, now, mint).result.Ok?
    ensures var r := Resolve(s, claim, userId, identityId, now);
            r.result.Ok?
              && Callback(s, claim, userId, identityId, now, mint) == GenerateBundle(r.store, r.result.value, mint)
  {
  }

  /** The four requests that never touch the token table. */
  lemma AccountEffect(s: Store, op: Op)
    requires op.OpRegister? || op.OpVerify? || op.OpResend?
    ensures Apply(s, op).store.tokens == s.tokens && s.users.Keys <= Apply(s, op).store.users.Keys
  {
    match op
    case OpRegister(_, _, _, _, _, _, _) =>
    case OpVerify(_, _) =>
    case OpResend(_, _, _, _) =>
  }

  /** A request answered with an error has no effect at all. */
  lemma FailureKeepsStore(s: Store, op: Op)
    requires Apply(s, op).result.Err?
    ensures Apply(s, op).store == s
  {
  }

  /** The request changed the token table by the effect its answer tells, and removed no user. */
  ghost predicate HasEffect(s: Store, e: Event, after: Store) {
    && Allowed(s.tokens, EffectOf(s, e)) && after.tokens == Affect(s.tokens, EffectOf(s, e))
    && s.users.Keys <= after.users.Keys
  }

  lemma LoginSound(s: Store, email: string, password: string, mint: Mint)
    requires Login(s, email, password, mint).result.Ok?
    ensures var a := Login(s, email, password, mint);
            HasEffect(s, Event(OpLogin(email, password, mint), a.result), a.store)
  {
    BundleEffect(s, Admit(s.users, email, password).value, mint);
  }

  lemma CallbackSound(s: Store, claim: Claim, userId: Id, identityId: Id, now: int, mint: Mint)
    requires Callback(s, claim, userId, identityId, now, mint).result.Ok?
    ensures var a := Callback(s, claim, userId, identityId, now, mint);
            HasEffect(s, Event(OpCallback(claim, userId, identityId, now, mint), a.result), a.store)
  {
    CallbackEffect(s, claim, userId, identityId, now, mint);
    ResolveEffect(s, claim, userId, identityId, now);
    var r := Resolve(s, claim, userId, identityId, now);
    BundleEffect(r.store, r.result.value, mint);
  }

  lemma RefreshSound(s: Store, raw: string, startedAt: int, checkedAt: int, mint: Mint)
    requires Refresh(s, raw, startedAt, checkedAt, mint).result.Ok?
    ensures var a := Refresh(s, raw, startedAt, checkedAt, mint);
            HasEffect(s, Event(OpRefresh(raw, startedAt, checkedAt, mint), a.result), a.store)
  {
    RefreshEffect(s, raw, startedAt, checkedAt, mint);
    var (id, row) := Lookup(s, raw).value;
    BundleEffect(RevokeRow(s, id, startedAt), row.userId, mint);
  }

  lemma LogoutSound(s: Store, raw: string, startedAt: int)
    requires Revoke(s, raw, startedAt).result.Ok?
    ensures var a := Revoke(s, raw, startedAt); HasEffect(s, Event(OpLogout(raw, startedAt), a.result), a.store)
  {
    LookupFinds(s, raw);
  }

  lemma RefusedSound(s: Store, op: Op)
    requires Apply(s, op).result.Err?
    ensures HasEffect(s, Event(op, Apply(s, op).result), Apply(s, op).store)
  {
    FailureKeepsStore(s, op);
  }

  lemma ServedSound(s: Store, op: Op)
    requires Apply(s, op).result.Ok?
    ensures HasEffect(s, Event(op, Apply(s, op).result), Apply(s, op).store)
  {
    match op
    case OpLogin(email, password, mint) => LoginSound(s, email, password, mint);
    case OpCallback(claim, userId, identityId, now, mint) => CallbackSound(s, claim, userId, identityId, now, mint);
    case OpRefresh(raw, startedAt, checkedAt, mint) => RefreshSound(s, raw, startedAt, checkedAt, mint);
    case OpLogout(raw, startedAt) => LogoutSound(s, raw, startedAt);
    case _ => AccountEffect(s, op);
  }

  /** Each request has the effect its answer tells, on the token table and on nothing older. */
  lemma EffectSound(s: Store, e: Event)
    requires Apply(s, e.op).result == e.result
    ensures Allowed(s.tokens, EffectOf(s, e))
    ensures Apply(s, e.op).store.tokens == Affect(s.tokens, EffectOf(s, e))
    ensures s.users.Keys <= Apply(s, e.op).store.users.Keys
  {
    assert e == Event(e.op, e.result);
    if e.result.Err? {
      RefusedSound(s, e.op);
    } else {
      ServedSound(s, e.op);
    }
  }

  /** A minted token is the printed id and secret, and its owner exists. */
  lemma MintSound(s: Store, e: Event)
    requires Apply(s, e.op).result == e.result
    ensures var effect := EffectOf(s, e);
            effect.Rooted? || effect.Rotated? ==>
              && (e.op.OpLogin? || e.op.OpCallback? || e.op.OpRefresh?)
              && effect.raw == MintedRaw(e.op.mint) && effect.o.id == e.op.mint.id
              && effect.o.userId in Apply(s, e.op).store.users
  {
    if e.result.Ok? {
      match e.op
      case OpLogin(email, _, mint) =>
        BundleEffect(s, FindByEmail(s.users, email).value, mint);
      case OpCallback(claim, userId, identityId, now, mint) =>
        CallbackEffect(s, claim, userId, identityId, now, mint);
        ResolveEffect(s, claim, userId, identityId, now);
        var r := Resolve(s, claim, userId, identityId, now);
        BundleEffect(r.store, r.result.value, mint);
      case OpRefresh(raw, startedAt, checkedAt, mint) =>
        RefreshEffect(s, raw, startedAt, checkedAt, mint);
        var (id, row) := Lookup(s, raw).value;
        BundleEffect(RevokeRow(s, id, startedAt), row.userId, mint);
      case _ =>
    }
  }
}
