/**
 What a history of requests says about refresh tokens, without looking at the table: which raw
 tokens were handed out, to whom and when, and which were spent. The token table turns out to be
 exactly that record, so looking a raw token up by id and MAC agrees with a plain map, and a
 refresh succeeds exactly when the history says it should.
 */
module TokenHistory {
  import opened Wrappers
  import opened Uuids
  import opened RawTokens
  import opened Model
  import opened Operations
  import opened TokenEffects

  predicate Mints(op: Op) {
    op.OpLogin? || op.OpCallback? || op.OpRefresh?
  }

  predicate Spends(op: Op) {
    op.OpRefresh? || op.OpLogout?
  }

  /** Every raw token the history handed out. */
  function Minted(log: seq<Event>): map<string, Origin> {
    if log == [] then map[]
    else
      var before, e := Minted(log[..|log| - 1]), log[|log| - 1];
      if Mints(e.op) && e.result.Ok? && e.result.value.Bundle?
      then before[e.result.value.raw := OriginOf(e.op.mint, e.result.value)] else before
  }

  /** Every raw token the history redeemed or logged out. */
  function Spent(log: seq<Event>): set<string> {
    if log == [] then {}
    else
      var before, e := Spent(log[..|log| - 1]), log[|log| - 1];
      if Spends(e.op) && e.result.Ok? then before + {e.op.raw} else before
  }

  /** The row `id` records a raw token that was minted for it, revoked exactly if it was spent. */
  ghost predicate Records(tokens: map<Id, Token>, id: Id, minted: map<string, Origin>, spent: set<string>)
    requires id in tokens
  {
    && tokens[id].hash.Hmac?
    && var raw := tokens[id].hash.text;
    && raw in minted && minted[raw].id == id
    && tokens[id] == RowOf(raw, minted[raw], tokens[id].revokedAt)
    && (tokens[id].revokedAt.Some? <==> raw in spent)
  }

  ghost predicate Recorded(tokens: map<Id, Token>, minted: map<string, Origin>, raw: string)
    requires raw in minted
  {
    minted[raw].id in tokens && tokens[minted[raw].id].hash == Hmac(raw)
  }

  /** The token table is the record of what was minted and spent. */
  ghost predicate InSync(tokens: map<Id, Token>, minted: map<string, Origin>, spent: set<string>) {
    && (forall id {:trigger Records(tokens, id, minted, spent)} :: id in tokens ==> Records(tokens, id, minted, spent))
    && (forall raw {:trigger Recorded(tokens, minted, raw)} :: raw in minted ==> Recorded(tokens, minted, raw))
    && spent <= minted.Keys
  }

  // ---------------------------------------------------------------- one effect

  function StepMinted(minted: map<string, Origin>, effect: Effect): map<string, Origin> {
    if effect.Rooted? || effect.Rotated? then minted[effect.raw := effect.o] else minted
  }

  function StepSpent(spent: set<string>, effect: Effect): set<string> {
    if effect.Rotated? || effect.Dropped? then spent + {effect.spent} else spent
  }

  /** A freshly minted row keeps the table in sync with the longer record. */
  lemma InsertKeepsSync(tokens: map<Id, Token>, minted: map<string, Origin>, spent: set<string>, raw: string, o: Origin)
    requires InSync(tokens, minted, spent) && o.id !in tokens && raw !in minted
    ensures InSync(tokens[o.id := RowOf(raw, o, None)], minted[raw := o], spent)
  {
    var tokens', minted' := tokens[o.id := RowOf(raw, o, None)], minted[raw := o];
    forall id | id in tokens' ensures Records(tokens', id, minted', spent) {
      if id != o.id {
        assert Records(tokens, id, minted, spent);
      }
    }
    forall r | r in minted' ensures Recorded(tokens', minted', r) {
      if r != raw {
        assert Recorded(tokens, minted, r);
      }
    }
  }

  /** Revoking the row of a raw token keeps the table in sync with that token spent. */
  lemma RevokeKeepsSync(tokens: map<Id, Token>, minted: map<string, Origin>, spent: set<string>,
                        raw: string, id: Id, at: int)
    requires InSync(tokens, minted, spent) && id in tokens && tokens[id].hash == Hmac(raw)
    ensures InSync(Revoked(tokens, id, at), minted, spent + {raw})
    ensures raw in minted && minted[raw].id == id
  {
    var tokens' := Revoked(tokens, id, at);
    assert Records(tokens, id, minted, spent);
    forall x | x in tokens' ensures Records(tokens', x, minted, spent + {raw}) {
      assert Records(tokens, x, minted, spent);
    }
    forall r | r in minted ensures Recorded(tokens', minted, r) {
      assert Recorded(tokens, minted, r);
    }
  }

  lemma EffectKeepsSync(tokens: map<Id, Token>, minted: map<string, Origin>, spent: set<string>, effect: Effect)
    requires InSync(tokens, minted, spent) && Allowed(tokens, effect)
    requires effect.Rooted? || effect.Rotated? ==> effect.raw !in minted
    ensures InSync(Affect(tokens, effect), StepMinted(minted, effect), StepSpent(spent, effect))
  {
    match effect
    case Same =>
    case Rooted(raw, o) => InsertKeepsSync(tokens, minted, spent, raw, o);
    case Rotated(used, parent, at, raw, o) =>
      RevokeKeepsSync(tokens, minted, spent, used, parent, at);
      InsertKeepsSync(Revoked(tokens, parent, at), minted, spent + {used}, raw, o);
    case Dropped(used, id, at) => RevokeKeepsSync(tokens, minted, spent, used, id, at);
  }

  // ---------------------------------------------------------------- whole histories

  ghost function TokensAfter(log: seq<Event>): map<Id, Token> {
    After(EMPTY, log).tokens
  }

  /** The last event of a history is an effect on what the rest of it left. */
  lemma LastEffect(log: seq<Event>) returns (s: Store, effect: Effect)
    requires Faithful(EMPTY, log) && log != []
    ensures var init := log[..|log| - 1];
            && Faithful(EMPTY, init) && s == After(EMPTY, init) && s.tokens == TokensAfter(init)
            && effect == EffectOf(s, log[|log| - 1])
            && Apply(s, log[|log| - 1].op).result == log[|log| - 1].result
            && Allowed(s.tokens, effect) && TokensAfter(log) == Affect(s.tokens, effect)
            && s.users.Keys <= After(EMPTY, log).users.Keys
            && Minted(log) == StepMinted(Minted(init), effect) && Spent(log) == StepSpent(Spent(init), effect)
  {
    var init, e := log[..|log| - 1], log[|log| - 1];
    s := After(EMPTY, init);
    effect := EffectOf(s, e);
    EffectSound(s, e);
    RecordSteps(log, s);
  }

  /** What was minted and spent grows by the effect of the last event. */
  lemma RecordSteps(log: seq<Event>, s: Store)
    requires log != [] && Apply(s, log[|log| - 1].op).result == log[|log| - 1].result
    ensures var init, effect := log[..|log| - 1], EffectOf(s, log[|log| - 1]);
            Minted(log) == StepMinted(Minted(init), effect) && Spent(log) == StepSpent(Spent(init), effect)
  {
    var e := log[|log| - 1];
    if e.result.Ok? {
      AnswerKinds(s, e);
    }
  }

  /** Which answers go with which requests. */
  lemma AnswerKinds(s: Store, e: Event)
    requires Apply(s, e.op).result == e.result && e.result.Ok?
    ensures Mints(e.op) ==> e.result.value.Bundle?
    ensures Spends(e.op) ==> Lookup(s, e.op.raw).Ok?
  {
    match e.op
    case OpCallback(claim, userId, identityId, now, mint) =>
      CallbackEffect(s, claim, userId, identityId, now, mint);
    case OpRefresh(raw, startedAt, checkedAt, mint) =>
      RefreshEffect(s, raw, startedAt, checkedAt, mint);
    case _ =>
  }

  /** Every raw token handed out names the id it was minted for. */
  lemma {:induction false} MintedNames(log: seq<Event>, raw: string)
    requires Faithful(EMPTY, log) && raw in Minted(log)
    ensures KeyOf(raw) == Some(Minted(log)[raw].id)
  {
    var s, effect := LastEffect(log);
    if (effect.Rooted? || effect.Rotated?) && effect.raw == raw {
      MintSound(s, log[|log| - 1]);
      MintedKey(log[|log| - 1].op.mint);
    } else {
      MintedNames(log[..|log| - 1], raw);
    }
  }

  /** In every history the token table is the record of what was minted and spent. */
  lemma {:induction false} TableIsRecord(log: seq<Event>)
    requires Faithful(EMPTY, log)
    ensures InSync(TokensAfter(log), Minted(log), Spent(log))
  {
    if log != [] {
      var init := log[..|log| - 1];
      var s, effect := LastEffect(log);
      TableIsRecord(init);
      if effect.Rooted? || effect.Rotated? {
        NewRawIsNew(init, s, log[|log| - 1]);
      }
      EffectKeepsSync(s.tokens, Minted(init), Spent(init), effect);
    }
  }

  /** A mint that succeeds hands out a raw token never handed out before. */
  lemma NewRawIsNew(init: seq<Event>, s: Store, e: Event)
    requires Faithful(EMPTY, init) && s == After(EMPTY, init) && Apply(s, e.op).result == e.result
    requires InSync(s.tokens, Minted(init), Spent(init))
    requires EffectOf(s, e).Rooted? || EffectOf(s, e).Rotated?
    ensures EffectOf(s, e).raw !in Minted(init)
  {
    var effect := EffectOf(s, e);
    EffectSound(s, e);
    MintSound(s, e);
    MintedKey(e.op.mint);
    assert effect.raw in Minted(init) ==> Recorded(s.tokens, Minted(init), effect.raw);
    if effect.raw in Minted(init) {
      MintedNames(init, effect.raw);
    }
  }

  /** The owner of every token exists. */
  lemma {:induction false} OwnersExist(log: seq<Event>, id: Id)
    requires Faithful(EMPTY, log) && id in TokensAfter(log)
    ensures TokensAfter(log)[id].userId in After(EMPTY, log).users
  {
    if log != [] {
      var s, effect := LastEffect(log);
      if id in s.tokens {
        OwnersExist(log[..|log| - 1], id);
      } else {
        MintSound(s, log[|log| - 1]);
      }
    }
  }

  /**
   `Get` finds a row for exactly the raw tokens that were handed out, and the row it finds is the
   one that token was minted for, whatever spelling of the id the presented string uses.
   */
  lemma LookupAgrees(log: seq<Event>, raw: string)
    requires Faithful(EMPTY, log)
    ensures Lookup(After(EMPTY, log), raw).Ok? <==> raw in Minted(log)
    ensures raw in Minted(log) ==>
              var (id, row) := Lookup(After(EMPTY, log), raw).value;
              id == Minted(log)[raw].id && row == RowOf(raw, Minted(log)[raw], row.revokedAt)
              && (row.revokedAt.Some? <==> raw in Spent(log))
  {
    var s := After(EMPTY, log);
    TableIsRecord(log);
    if Lookup(s, raw).Ok? {
      LookupFinds(s, raw);
      assert Records(s.tokens, Lookup(s, raw).value.0, Minted(log), Spent(log));
    }
    if raw in Minted(log) {
      MintedNames(log, raw);
      assert Recorded(s.tokens, Minted(log), raw);
      assert Records(s.tokens, Minted(log)[raw].id, Minted(log), Spent(log));
      LookupOf(s, raw, Minted(log)[raw].id);
    }
  }

  /**
   A string that names the id of a token that was handed out but is not that token, because it
   spells the id differently or carries another secret, is refused as invalid.
   */
  lemma OtherSpellingRefused(log: seq<Event>, raw: string, other: string)
    requires Faithful(EMPTY, log) && raw in Minted(log) && other != raw && KeyOf(other) == KeyOf(raw)
    ensures Lookup(After(EMPTY, log), other) == Err(InvalidToken)
  {
    TableIsRecord(log);
    MintedNames(log, raw);
    assert Recorded(After(EMPTY, log).tokens, Minted(log), raw);
  }

  /** The answer of the n-th event, a refresh, on the store before it. */
  lemma RefreshAt(log: seq<Event>, n: nat)
    requires Faithful(EMPTY, log) && n < |log| && log[n].op.OpRefresh?
    ensures Faithful(EMPTY, log[..n])
    ensures var OpRefresh(raw, startedAt, checkedAt, mint) := log[n].op;
            log[n].result == Refresh(After(EMPTY, log[..n]), raw, startedAt, checkedAt, mint).result
  {
    FaithfulAt(EMPTY, log, n);
    var OpRefresh(raw, startedAt, checkedAt, mint) := log[n].op;
    AnswerOfRefresh(After(EMPTY, log[..n]), raw, startedAt, checkedAt, mint);
  }

  lemma AnswerOfRefresh(s: Store, raw: string, startedAt: int, checkedAt: int, mint: Mint)
    ensures Apply(s, OpRefresh(raw, startedAt, checkedAt, mint)) == Refresh(s, raw, startedAt, checkedAt, mint)
  {
  }

  /**
   A refresh succeeds exactly when its raw token was handed out, was never redeemed or logged out,
   is within its thirty days, and the generated id is new.
   */
  lemma RefreshSucceedsIff(log: seq<Event>, n: nat)
    requires Faithful(EMPTY, log) && n < |log| && log[n].op.OpRefresh?
    ensures var op, minted := log[n].op, Minted(log[..n]);
            log[n].result.Ok? <==>
              && op.raw in minted && op.raw !in Spent(log[..n])
              && op.checkedAt <= minted[op.raw].issuedAt + 2592000
              && op.mint.id !in TokensAfter(log[..n])
  {
    RefreshAt(log, n);
    LookupAgrees(log[..n], log[n].op.raw);
    if log[n].op.raw in Minted(log[..n]) {
      OwnersExist(log[..n], Lookup(After(EMPTY, log[..n]), log[n].op.raw).value.0);
    }
  }

  // ---------------------------------------------------------------- every answer

  /** Some token with this id was handed out. */
  ghost predicate IdMinted(minted: map<string, Origin>, id: Id) {
    exists raw :: raw in minted && minted[raw].id == id
  }

  /** The ids in the table are those of the tokens handed out. */
  lemma IdsAgree(log: seq<Event>, id: Id)
    requires Faithful(EMPTY, log)
    ensures id in TokensAfter(log) <==> IdMinted(Minted(log), id)
  {
    TableIsRecord(log);
    if id in TokensAfter(log) {
      assert Records(TokensAfter(log), id, Minted(log), Spent(log));
    }
    if IdMinted(Minted(log), id) {
      var raw :| raw in Minted(log) && Minted(log)[raw].id == id;
      assert Recorded(TokensAfter(log), Minted(log), raw);
    }
  }

  /** How a string that was never handed out is refused. */
  ghost function Unissued(minted: map<string, Origin>, raw: string): Error {
    match ExtractId(raw)
    case None => MalformedToken
    case Some(text) =>
      match DbParse(text)
      case None => UnreadableId
      case Some(id) => if IdMinted(minted, id) then InvalidToken else TokenNotFound
  }

  /** Only where some token has the id is the answer that the token is invalid. */
  lemma UnissuedRefused(log: seq<Event>, raw: string)
    requires Faithful(EMPTY, log) && raw !in Minted(log)
    ensures Lookup(After(EMPTY, log), raw) == Err(Unissued(Minted(log), raw))
  {
    LookupAgrees(log, raw);
    if KeyOf(raw).Some? {
      IdsAgree(log, KeyOf(raw).value);
    }
  }

  /** The answer to a refresh, from what was minted and spent before. */
  ghost function RefreshAnswer(minted: map<string, Origin>, spent: set<string>, raw: string, checkedAt: int, mint: Mint)
    : Result<Reply>
  {
    if raw !in minted then Err(Unissued(minted, raw))
    else if raw in spent then Err(TokenRevoked)
    else if checkedAt > minted[raw].issuedAt + 2592000 then Err(TokenExpired)
    else if IdMinted(minted, mint.id) then Err(UniqueViolation)
    else Ok(Bundle(minted[raw].userId, Print(mint.id, mint.secret)))
  }

  /** In every history every refresh gets that answer. */
  lemma RefreshAnswered(log: seq<Event>, n: nat)
    requires Faithful(EMPTY, log) && n < |log| && log[n].op.OpRefresh?
    ensures var OpRefresh(raw, _, checkedAt, mint) := log[n].op;
            log[n].result == RefreshAnswer(Minted(log[..n]), Spent(log[..n]), raw, checkedAt, mint)
  {
    var OpRefresh(raw, startedAt, checkedAt, mint) := log[n].op;
    RefreshAt(log, n);
    NextRefresh(log[..n], raw, startedAt, checkedAt, mint);
  }

  lemma NextRefresh(log: seq<Event>, raw: string, startedAt: int, checkedAt: int, mint: Mint)
    requires Faithful(EMPTY, log)
    ensures Refresh(After(EMPTY, log), raw, startedAt, checkedAt, mint).result
         == RefreshAnswer(Minted(log), Spent(log), raw, checkedAt, mint)
  {
    LookupAgrees(log, raw);
    if raw in Minted(log) {
      OwnersExist(log, Minted(log)[raw].id);
      LookupFinds(After(EMPTY, log), raw);
      IdsAgree(log, mint.id);
    } else {
      UnissuedRefused(log, raw);
    }
  }

  /** And every logout of a token that was handed out succeeds, spent or not, and no other. */
  lemma LogoutAnswered(log: seq<Event>, n: nat)
    requires Faithful(EMPTY, log) && n < |log| && log[n].op.OpLogout?
    ensures var raw, minted := log[n].op.raw, Minted(log[..n]);
            log[n].result == if raw in minted then Ok(Nothing) else Err(Unissued(minted, raw))
  {
    var OpLogout(raw, startedAt) := log[n].op;
    FaithfulAt(EMPTY, log, n);
    AnswerOfLogout(After(EMPTY, log[..n]), raw, startedAt);
    NextLogout(log[..n], raw, startedAt);
  }

  lemma AnswerOfLogout(s: Store, raw: string, startedAt: int)
    ensures Apply(s, OpLogout(raw, startedAt)) == Revoke(s, raw, startedAt)
  {
  }

  lemma NextLogout(log: seq<Event>, raw: string, startedAt: int)
    requires Faithful(EMPTY, log)
    ensures var minted := Minted(log);
            Revoke(After(EMPTY, log), raw, startedAt).result
            == if raw in minted then Ok(Nothing) else Err(Unissued(minted, raw))
  {
    LookupAgrees(log, raw);
    if raw !in Minted(log) {
      UnissuedRefused(log, raw);
    }
  }

  // ---------------------------------------------------------------- when a token was revoked

  /** The `i`-th event is the last that spent the token. */
  predicate LastSpent(log: seq<Event>, i: nat, raw: string) {
    && i < |log| && Spends(log[i].op) && log[i].op.raw == raw && log[i].result.Ok?
    && forall j :: i < j < |log| && Spends(log[j].op) && log[j].op.raw == raw ==> log[j].result.Err?
  }

  /** The row is marked with the time. */
  ghost predicate MarkedAt(tokens: map<Id, Token>, raw: string, at: int) {
    exists id :: id in tokens && tokens[id].hash == Hmac(raw) && tokens[id].revokedAt == Some(at)
  }

  lemma MarkStays(tokens: map<Id, Token>, effect: Effect, raw: string, at: int)
    requires Allowed(tokens, effect) && MarkedAt(tokens, raw, at)
    requires (effect.Rotated? || effect.Dropped?) ==> effect.spent != raw
    ensures MarkedAt(Affect(tokens, effect), raw, at)
  {
    var id :| id in tokens && tokens[id].hash == Hmac(raw) && tokens[id].revokedAt == Some(at);
    assert id in Affect(tokens, effect) && Affect(tokens, effect)[id] == tokens[id];
  }

  lemma SpendMarks(tokens: map<Id, Token>, effect: Effect)
    requires Allowed(tokens, effect) && (effect.Rotated? || effect.Dropped?)
    ensures MarkedAt(Affect(tokens, effect), effect.spent, effect.at)
  {
    var id := if effect.Rotated? then effect.parent else effect.id;
    assert id in Affect(tokens, effect) && Affect(tokens, effect)[id] == tokens[id].(revokedAt := Some(effect.at));
  }

  /** Spending effects are those of the requests that spend, of their token and at their start. */
  lemma SpendIs(s: Store, e: Event, effect: Effect)
    requires Apply(s, e.op).result == e.result && effect == EffectOf(s, e)
    ensures effect.Rotated? || effect.Dropped? <==> Spends(e.op) && e.result.Ok?
    ensures effect.Rotated? || effect.Dropped? ==> effect.spent == e.op.raw && effect.at == e.op.startedAt
  {
    if e.result.Ok? {
      AnswerKinds(s, e);
    }
  }

  lemma NotSpentAgain(log: seq<Event>, last: nat, i: nat, raw: string)
    requires |log| == last + 1 && LastSpent(log[..last], i, raw)
    requires Spends(log[last].op) && log[last].op.raw == raw ==> log[last].result.Err?
    ensures LastSpent(log, i, raw) && log[i] == log[..last][i]
  {
    assert forall j :: i < j < last ==> log[..last][j] == log[j];
  }

  /** A spent token's row carries the start time of the last transaction that spent it. */
  lemma {:induction false} RevokedWhenSpent(log: seq<Event>, raw: string) returns (i: nat)
    requires Faithful(EMPTY, log) && raw in Spent(log)
    ensures LastSpent(log, i, raw) && MarkedAt(TokensAfter(log), raw, log[i].op.startedAt)
  {
    var s, effect := LastEffect(log);
    var last := |log| - 1;
    SpendIs(s, log[last], effect);
    if (effect.Rotated? || effect.Dropped?) && effect.spent == raw {
      i := last;
      SpendMarks(s.tokens, effect);
    } else {
      i := RevokedWhenSpent(log[..last], raw);
      NotSpentAgain(log, last, i, raw);
      MarkStays(s.tokens, effect, raw, log[i].op.startedAt);
    }
  }

  lemma {:induction false} SpentGrows(log: seq<Event>, i: nat)
    requires i < |log| && Spends(log[i].op) && log[i].result.Ok?
    ensures log[i].op.raw in Spent(log)
  {
    if i < |log| - 1 {
      SpentGrows(log[..|log| - 1], i);
    }
  }

  /**
   Single redemption: once a refresh or a logout of a raw token has committed, every later refresh
   of it is answered with "revoked".
   */
  lemma SingleRedemption(log: seq<Event>, i: nat, j: nat)
    requires Faithful(EMPTY, log) && i < j < |log|
    requires Spends(log[i].op) && log[i].result.Ok?
    requires log[j].op.OpRefresh? && log[j].op.raw == log[i].op.raw
    ensures log[j].result == Err(TokenRevoked)
  {
    var before := log[..j];
    assert before[i] == log[i];
    SpentGrows(before, i);
    RefreshAt(log, j);
    TableIsRecord(before);
    LookupAgrees(before, log[j].op.raw);
    OwnersExist(before, Lookup(After(EMPTY, before), log[j].op.raw).value.0);
  }
}
