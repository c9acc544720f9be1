/**
 Rotation as a graph. A refresh links the token it mints to the token it redeems; logins and
 callbacks mint roots. Over every history the links form disjoint simple paths on which every token
 but the last is revoked, and the number of live tokens of a user is the number of roots minted
 for them less the logouts that found a live token.
 */
module TokenChains {
  import opened Wrappers
  import opened Model
  import opened Operations
  import opened TokenEffects
  import opened TokenHistory

  /** A grouping of ids in paths, each named by its first id; `root` says which path an id is on. */
  datatype Forest = Forest(paths: map<Id, seq<Id>>, root: map<Id, Id>)

  function Plant(f: Forest, id: Id): Forest {
    Forest(f.paths[id := [id]], f.root[id := id])
  }

  function Extend(f: Forest, parent: Id, id: Id): Forest {
    if parent in f.root && f.root[parent] in f.paths then
      var r := f.root[parent];
      Forest(f.paths[r := f.paths[r] + [id]], f.root[id := r])
    else f
  }

  ghost predicate SimplePath(p: seq<Id>) {
    p != [] && forall i, j :: 0 <= i < j < |p| ==> p[i] != p[j]
  }

  ghost predicate Link(p: seq<Id>, parents: map<Id, Id>, i: int) {
    0 < i < |p| ==> p[i] in parents && parents[p[i]] == p[i - 1]
  }

  /** `p` starts at its name `r` and follows the parent links. */
  ghost predicate Linked(p: seq<Id>, parents: map<Id, Id>, r: Id) {
    && SimplePath(p) && p[0] == r && r !in parents
    && forall i :: Link(p, parents, i)
  }

  /** One user owns all of `p`, and only its last token can be live. */
  ghost predicate Rotating(p: seq<Id>, tokens: map<Id, Token>, userId: Id) {
    && (forall i :: 0 <= i < |p| ==> p[i] in tokens && tokens[p[i]].userId == userId)
    && (forall i :: 0 <= i < |p| - 1 ==> tokens[p[i]].revokedAt.Some?)
  }

  /** The ids on `p` are the ones filed under `r`. */
  ghost predicate Filed(p: seq<Id>, root: map<Id, Id>, r: Id) {
    forall i :: 0 <= i < |p| ==> p[i] in root && root[p[i]] == r
  }

  ghost predicate Chain(f: Forest, tokens: map<Id, Token>, parents: map<Id, Id>, r: Id)
    requires r in f.paths
  {
    r in tokens && Linked(f.paths[r], parents, r) && Rotating(f.paths[r], tokens, tokens[r].userId)
      && Filed(f.paths[r], f.root, r)
  }

  ghost predicate OnItsPath(f: Forest, id: Id)
    requires id in f.root
  {
    f.root[id] in f.paths && id in f.paths[f.root[id]]
  }

  /** Every token is on exactly one path, every path is a chain, and the chains start at the roots. */
  ghost predicate DisjointChains(f: Forest, tokens: map<Id, Token>, roots: set<Id>, parents: map<Id, Id>) {
    && f.root.Keys == tokens.Keys
    && f.paths.Keys == roots
    && roots + parents.Keys == tokens.Keys
    && (forall r {:trigger Chain(f, tokens, parents, r)} :: r in f.paths ==> Chain(f, tokens, parents, r))
    && (forall id {:trigger OnItsPath(f, id)} :: id in f.root ==> OnItsPath(f, id))
  }

  /** Between two tables: no row goes, no owner changes, no revocation is undone. */
  ghost predicate RowsKept(tokens: map<Id, Token>, tokens': map<Id, Token>) {
    forall id :: id in tokens ==>
      id in tokens' && tokens'[id].userId == tokens[id].userId
      && (tokens[id].revokedAt.Some? ==> tokens'[id].revokedAt.Some?)
  }

  lemma LinkedStays(p: seq<Id>, tokens: map<Id, Token>, parents: map<Id, Id>, r: Id, child: Id, parent: Id)
    requires Linked(p, parents, r) && r in tokens && Rotating(p, tokens, tokens[r].userId) && child !in tokens
    ensures Linked(p, parents[child := parent], r)
  {
    var parents' := parents[child := parent];
    forall i ensures Link(p, parents', i) {
      assert Link(p, parents, i);
    }
  }

  lemma PlantKeepsChains(f: Forest, tokens: map<Id, Token>, roots: set<Id>, parents: map<Id, Id>, id: Id, row: Token)
    requires DisjointChains(f, tokens, roots, parents) && id !in tokens
    ensures DisjointChains(Plant(f, id), tokens[id := row], roots + {id}, parents)
  {
    var f', tokens' := Plant(f, id), tokens[id := row];
    forall r | r in f'.paths ensures Chain(f', tokens', parents, r) {
      if r != id {
        assert Chain(f, tokens, parents, r);
      }
    }
    forall x | x in f'.root ensures OnItsPath(f', x) {
      if x != id {
        assert OnItsPath(f, x);
      }
    }
  }

  /** A live token is the last of its path. */
  lemma LiveIsLast(f: Forest, tokens: map<Id, Token>, roots: set<Id>, parents: map<Id, Id>, id: Id)
    requires DisjointChains(f, tokens, roots, parents) && id in tokens && tokens[id].revokedAt.None?
    ensures f.root[id] in f.paths && f.paths[f.root[id]] != []
    ensures var p := f.paths[f.root[id]]; p[|p| - 1] == id
  {
    assert OnItsPath(f, id);
    assert Chain(f, tokens, parents, f.root[id]);
  }

  lemma OneLive(f: Forest, tokens: map<Id, Token>, roots: set<Id>, parents: map<Id, Id>, a: Id, b: Id)
    requires DisjointChains(f, tokens, roots, parents)
    requires a in tokens && tokens[a].revokedAt.None? && b in tokens && tokens[b].revokedAt.None?
    ensures a in f.root && b in f.root && (f.root[a] == f.root[b] ==> a == b)
  {
    LiveIsLast(f, tokens, roots, parents, a);
    LiveIsLast(f, tokens, roots, parents, b);
  }

  /** A path whose last token is redeemed grows by the token that replaces it. */
  lemma LongerChain(p: seq<Id>, tokens: map<Id, Token>, parents: map<Id, Id>, r: Id,
                    tokens': map<Id, Token>, parents': map<Id, Id>, id: Id)
    requires Linked(p, parents, r) && r in tokens && Rotating(p, tokens, tokens[r].userId) && id !in tokens
    requires parents' == parents[id := p[|p| - 1]]
    requires RowsKept(tokens, tokens') && tokens'[p[|p| - 1]].revokedAt.Some?
    requires id in tokens' && tokens'[id].userId == tokens[r].userId
    ensures Linked(p + [id], parents', r) && Rotating(p + [id], tokens', tokens[r].userId)
  {
    var q := p + [id];
    assert forall i :: 0 <= i < |p| ==> q[i] == p[i] && p[i] in tokens;
    forall i ensures Link(q, parents', i) {
      assert Link(p, parents, i);
    }
  }

  /** Both kinds of path stay chains: the one that grows and the others. */
  lemma ExtendKeepsChain(f: Forest, tokens: map<Id, Token>, roots: set<Id>, parents: map<Id, Id>,
                         parent: Id, at: int, id: Id, row: Token, r: Id)
    requires DisjointChains(f, tokens, roots, parents) && r in f.paths
    requires parent in tokens && tokens[parent].revokedAt.None? && id !in tokens && row.userId == tokens[parent].userId
    ensures r in Extend(f, parent, id).paths
    ensures Chain(Extend(f, parent, id), Revoked(tokens, parent, at)[id := row],
                  parents[id := parent], r)
  {
    LiveIsLast(f, tokens, roots, parents, parent);
    var tokens' := Revoked(tokens, parent, at)[id := row];
    assert Chain(f, tokens, parents, r);
    if r == f.root[parent] {
      LongerChain(f.paths[r], tokens, parents, r, tokens', parents[id := parent], id);
    } else {
      LinkedStays(f.paths[r], tokens, parents, r, id, parent);
    }
  }

  lemma ExtendKeepsChains(f: Forest, tokens: map<Id, Token>, roots: set<Id>, parents: map<Id, Id>,
                          parent: Id, at: int, id: Id, row: Token)
    requires DisjointChains(f, tokens, roots, parents)
    requires parent in tokens && tokens[parent].revokedAt.None? && id !in tokens && row.userId == tokens[parent].userId
    ensures DisjointChains(Extend(f, parent, id),
                           Revoked(tokens, parent, at)[id := row],
                           roots, parents[id := parent])
  {
    ExtendKeepsPlaces(f, tokens, roots, parents, parent, id);
    var f' := Extend(f, parent, id);
    var tokens' := Revoked(tokens, parent, at)[id := row];
    assert parents[id := parent].Keys == parents.Keys + {id} && tokens'.Keys == tokens.Keys + {id};
    forall r | r in f'.paths ensures Chain(f', tokens', parents[id := parent], r) {
      ExtendKeepsChain(f, tokens, roots, parents, parent, at, id, row, r);
    }
  }

  lemma ExtendKeepsPlaces(f: Forest, tokens: map<Id, Token>, roots: set<Id>, parents: map<Id, Id>, parent: Id, id: Id)
    requires DisjointChains(f, tokens, roots, parents)
    requires parent in tokens && tokens[parent].revokedAt.None? && id !in tokens
    ensures var f' := Extend(f, parent, id);
            f'.paths.Keys == f.paths.Keys && f'.root.Keys == f.root.Keys + {id}
            && forall x {:trigger OnItsPath(f', x)} :: x in f'.root ==> OnItsPath(f', x)
  {
    LiveIsLast(f, tokens, roots, parents, parent);
    var f', home := Extend(f, parent, id), f.root[parent];
    assert f'.paths == f.paths[home := f.paths[home] + [id]] && f'.root == f.root[id := home];
    forall x | x in f'.root ensures OnItsPath(f', x) {
      if x == id {
        assert f'.paths[home][|f.paths[home]|] == id;
      } else {
        assert OnItsPath(f, x);
      }
    }
  }

  lemma RevokeKeepsChains(f: Forest, tokens: map<Id, Token>, roots: set<Id>, parents: map<Id, Id>, id: Id, at: int)
    requires DisjointChains(f, tokens, roots, parents) && id in tokens
    ensures DisjointChains(f, Revoked(tokens, id, at), roots, parents)
  {
    var tokens' := Revoked(tokens, id, at);
    forall r | r in f.paths ensures Chain(f, tokens', parents, r) {
      assert Chain(f, tokens, parents, r);
    }
  }

  // ---------------------------------------------------------------- chains over a history

  /** The ids that logins and callbacks minted. */
  function Roots(log: seq<Event>): set<Id> {
    if log == [] then {}
    else
      var before, e := Roots(log[..|log| - 1]), log[|log| - 1];
      if (e.op.OpLogin? || e.op.OpCallback?) && e.result.Ok? then before + {e.op.mint.id} else before
  }

  /** The token each refresh redeemed, by the id of the token it minted. */
  function Parents(log: seq<Event>): map<Id, Id> {
    if log == [] then map[]
    else
      var init, e := log[..|log| - 1], log[|log| - 1];
      var before := Parents(init);
      if e.op.OpRefresh? && e.result.Ok? && e.op.raw in Minted(init)
      then before[e.op.mint.id := Minted(init)[e.op.raw].id] else before
  }

  function StepForest(f: Forest, effect: Effect): Forest {
    match effect
    case Rooted(_, o) => Plant(f, o.id)
    case Rotated(_, parent, _, _, o) => Extend(f, parent, o.id)
    case _ => f
  }

  /** Roots and parent links step with the effect on the token table. */
  lemma LinksStep(log: seq<Event>, s: Store, effect: Effect)
    requires log != [] && Faithful(EMPTY, log)
    requires s == After(EMPTY, log[..|log| - 1]) && effect == EffectOf(s, log[|log| - 1])
    ensures var init := log[..|log| - 1];
            Roots(log) == (if effect.Rooted? then Roots(init) + {effect.o.id} else Roots(init))
            && Parents(log) == (if effect.Rotated? then Parents(init)[effect.o.id := effect.parent] else Parents(init))
  {
    var init, e := log[..|log| - 1], log[|log| - 1];
    if e.result.Ok? {
      AnswerKinds(s, e);
      if e.op.OpRefresh? {
        LookupAgrees(init, e.op.raw);
      }
    }
  }

  lemma EffectKeepsChains(f: Forest, tokens: map<Id, Token>, roots: set<Id>, parents: map<Id, Id>, effect: Effect)
    requires DisjointChains(f, tokens, roots, parents) && Allowed(tokens, effect)
    ensures DisjointChains(StepForest(f, effect), Affect(tokens, effect),
                           if effect.Rooted? then roots + {effect.o.id} else roots,
                           if effect.Rotated? then parents[effect.o.id := effect.parent] else parents)
  {
    match effect
    case Same =>
    case Rooted(raw, o) => PlantKeepsChains(f, tokens, roots, parents, o.id, RowOf(raw, o, None));
    case Rotated(_, parent, at, raw, o) =>
      ExtendKeepsChains(f, tokens, roots, parents, parent, at, o.id, RowOf(raw, o, None));
    case Dropped(_, id, at) => RevokeKeepsChains(f, tokens, roots, parents, id, at);
  }

  /**
   After every history the committed tokens are disjoint simple paths: each starts at the token of
   a login or a callback, follows the redemption links, belongs to one user, and has every token
   but the last revoked.
   */
  lemma {:induction false} ChainsOverHistory(log: seq<Event>) returns (f: Forest)
    requires Faithful(EMPTY, log)
    ensures DisjointChains(f, TokensAfter(log), Roots(log), Parents(log))
  {
    if log == [] {
      f := Forest(map[], map[]);
    } else {
      var init := log[..|log| - 1];
      var s, effect := LastEffect(log);
      f := ChainsOverHistory(init);
      LinksStep(log, s, effect);
      EffectKeepsChains(f, s.tokens, Roots(init), Parents(init), effect);
      f := StepForest(f, effect);
    }
  }

  /** Two live tokens are never on the same chain. */
  lemma OneLivePerChain(log: seq<Event>, a: Id, b: Id) returns (f: Forest)
    requires Faithful(EMPTY, log)
    requires a in TokensAfter(log) && TokensAfter(log)[a].revokedAt.None?
    requires b in TokensAfter(log) && TokensAfter(log)[b].revokedAt.None?
    ensures DisjointChains(f, TokensAfter(log), Roots(log), Parents(log))
    ensures a in f.root && b in f.root && (f.root[a] == f.root[b] ==> a == b)
  {
    f := ChainsOverHistory(log);
    OneLive(f, TokensAfter(log), Roots(log), Parents(log), a, b);
  }

  // ---------------------------------------------------------------- conservation

  ghost predicate IsLive(tokens: map<Id, Token>, userId: Id, id: Id) {
    id in tokens && tokens[id].userId == userId && tokens[id].revokedAt.None?
  }

  ghost function LiveOf(tokens: map<Id, Token>, userId: Id): set<Id> {
    set id | id in tokens && IsLive(tokens, userId, id)
  }

  /** How many chains logins and callbacks started for a user. */
  function RootsFor(log: seq<Event>, userId: Id): nat {
    if log == [] then 0
    else
      var before, e := RootsFor(log[..|log| - 1], userId), log[|log| - 1];
      if (e.op.OpLogin? || e.op.OpCallback?) && e.result.Ok? && e.result.value.Bundle?
        && e.result.value.userId == userId
      then before + 1 else before
  }

  /** How many logouts presented a token of the user that was neither redeemed nor logged out before. */
  function LiveLogoutsFor(log: seq<Event>, userId: Id): nat {
    if log == [] then 0
    else
      var init, e := log[..|log| - 1], log[|log| - 1];
      var before := LiveLogoutsFor(init, userId);
      if e.op.OpLogout? && e.result.Ok? && e.op.raw in Minted(init) && e.op.raw !in Spent(init)
         && Minted(init)[e.op.raw].userId == userId
      then before + 1 else before
  }

  lemma LiveAdded(tokens: map<Id, Token>, id: Id, row: Token, userId: Id)
    requires id !in tokens && row.revokedAt.None?
    ensures |LiveOf(tokens[id := row], userId)| == |LiveOf(tokens, userId)| + (if row.userId == userId then 1 else 0)
  {
    var tokens' := tokens[id := row];
    assert LiveOf(tokens', userId) == LiveOf(tokens, userId) + (if row.userId == userId then {id} else {});
  }

  lemma LiveRemoved(tokens: map<Id, Token>, id: Id, at: int, userId: Id)
    requires id in tokens
    ensures |LiveOf(Revoked(tokens, id, at), userId)|
         == |LiveOf(tokens, userId)| - (if IsLive(tokens, userId, id) then 1 else 0)
  {
    assert LiveOf(Revoked(tokens, id, at), userId) == LiveOf(tokens, userId) - {id};
  }

  /** The net change of a user's live tokens: a rotation removes one and adds one. */
  ghost function Change(tokens: map<Id, Token>, effect: Effect, userId: Id): int {
    match effect
    case Rooted(_, o) => if o.userId == userId then 1 else 0
    case Dropped(_, id, _) => if IsLive(tokens, userId, id) then -1 else 0
    case _ => 0
  }

  lemma LiveChange(tokens: map<Id, Token>, effect: Effect, userId: Id)
    requires Allowed(tokens, effect)
    ensures |LiveOf(Affect(tokens, effect), userId)| == |LiveOf(tokens, userId)| + Change(tokens, effect, userId)
  {
    match effect
    case Same =>
    case Rooted(raw, o) => LiveAdded(tokens, o.id, RowOf(raw, o, None), userId);
    case Rotated(_, parent, at, raw, o) =>
      LiveRemoved(tokens, parent, at, userId);
      LiveAdded(Revoked(tokens, parent, at), o.id, RowOf(raw, o, None), userId);
    case Dropped(_, id, at) => LiveRemoved(tokens, id, at, userId);
  }

  /** The two counters step as the live set does. */
  lemma CountersStep(log: seq<Event>, s: Store, effect: Effect, userId: Id)
    requires log != [] && Faithful(EMPTY, log)
    requires s == After(EMPTY, log[..|log| - 1]) && effect == EffectOf(s, log[|log| - 1])
    ensures var init := log[..|log| - 1];
            RootsFor(log, userId) - LiveLogoutsFor(log, userId)
            == RootsFor(init, userId) - LiveLogoutsFor(init, userId) + Change(s.tokens, effect, userId)
  {
    var init, e := log[..|log| - 1], log[|log| - 1];
    if e.result.Ok? {
      AnswerKinds(s, e);
      if e.op.OpLogout? {
        LookupFinds(s, e.op.raw);
        LookupAgrees(init, e.op.raw);
      }
    }
  }

  /**
   Conservation: after every history, a user's live tokens are as many as the logins and callbacks
   that minted for them less the logouts that found a live token of theirs. Refreshes cancel out.
   */
  lemma {:induction false} LiveTokensConserved(log: seq<Event>, userId: Id)
    requires Faithful(EMPTY, log)
    ensures |LiveOf(TokensAfter(log), userId)| == RootsFor(log, userId) - LiveLogoutsFor(log, userId)
  {
    if log == [] {
      assert LiveOf(EMPTY.tokens, userId) == {};
    } else {
      var s, effect := LastEffect(log);
      LiveTokensConserved(log[..|log| - 1], userId);
      LiveChange(s.tokens, effect, userId);
      CountersStep(log, s, effect, userId);
    }
  }
}
