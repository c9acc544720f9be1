/**
 E-mail addresses of users who sign in through a provider. When a claim carries a new address the
 service updates the user's row, but passes the user's id where the identity's id belongs, so the
 identity keeps its first address. This module says exactly when the addresses agree.
 */
module EmailDrift {
  import opened Wrappers
  import opened Model
  import opened Operations
  import opened Accounts
  import opened AccountHistory

  /**
   In every history an identity has its user's address exactly as long as no claim with another
   address was resolved for that user, which is when their row was never updated.
   */
  lemma IdentityEmailAgreesIff(log: seq<Event>, i: Id)
    requires History(log) && i in After(EMPTY, log).identities
    ensures var s := After(EMPTY, log);
            var owner := s.identities[i].userId;
            owner in s.users
            && (s.identities[i].email == s.users[owner].email <==> s.users[owner].updatedAt.None?)
  {
    InvOverHistory(log);
    assert Passwordless(After(EMPTY, log).users, After(EMPTY, log).identities[i].userId);
  }

  /** The claim's identity exists and records the claim's address, but its user has moved on from it. */
  ghost predicate OutOfDate(s: Store, claim: Claim) {
    var found := FindIdentity(s.identities, claim.provider, claim.subject);
    && found.Some? && found.value in s.identities && s.identities[found.value].email == claim.email
    && s.identities[found.value].userId in s.users && s.users[s.identities[found.value].userId].updatedAt.Some?
  }

  /**
   After a claim is resolved its user has the claimed address, except exactly when the identity
   still records that address from before the user's row was updated: then nothing is updated.
   */
  lemma ResolvedEmailIsClaimedIff(s: Store, issued: set<string>, claim: Claim, userId: Id, identityId: Id, now: int)
    requires Inv(s, issued) && Unused(s, userId) && Unused(s, identityId) && userId != identityId
    requires Resolve(s, claim, userId, identityId, now).result.Ok?
    ensures var a := Resolve(s, claim, userId, identityId, now);
            a.result.value in a.store.users
            && (a.store.users[a.result.value].email == claim.email <==> !OutOfDate(s, claim))
  {
    ResolveCases(s, issued, claim, userId, identityId, now);
  }

  /**
   The failing family: a user moves to another address and a later claim returns to the first one.
   The claim is accepted and the user keeps the other address.
   */
  lemma ReturningEmailIsIgnored(s: Store, issued: set<string>, i: Id, away: Claim, back: Claim, userId: Id,
                                identityId: Id, now: int, later: int)
    requires Inv(s, issued) && Unused(s, userId) && Unused(s, identityId) && userId != identityId
    requires HasSubject(s.identities, i, away.provider, away.subject)
    requires back == away.(email := s.identities[i].email) && away.email != back.email
    requires Resolve(s, away, userId, identityId, now).result.Ok?
    ensures var moved := Resolve(s, away, userId, identityId, now).store;
            var owner := s.identities[i].userId;
            Resolve(moved, back, userId, identityId, later) == Outcome(moved, Ok(owner))
            && owner in moved.users && moved.users[owner].email == away.email != back.email
  {
    FindIdentityIs(s.identities, i);
    ResolveCases(s, issued, away, userId, identityId, now);
    ResolveKeepsInv(s, issued, away, userId, identityId, now);
    var moved := Resolve(s, away, userId, identityId, now).store;
    ResolveCases(moved, issued, back, userId, identityId, later);
  }

  const FIRST := Claim("google", "1", "Ann", "ann@old")
  const SECOND := Claim("google", "1", "Ann", "ann@new")

  /** Ann's user row and her identity, and no code. */
  ghost predicate HasAnn(s: Store, u: Id, i: Id, email: string, updatedAt: Option<int>) {
    && s.users == map[u := User("Ann", email, true, None, 1, updatedAt)]
    && s.identities == map[i := Identity(u, "google", "1", "ann@old", 1, None)] && s.codes == map[]
  }

  lemma SignsUp(u: Id, i: Id)
    requires u != i
    ensures var a := Resolve(EMPTY, FIRST, u, i, 1);
            a.result == Ok(u) && HasAnn(a.store, u, i, "ann@old", None) && a.store.tokens == map[]
  {
    assert Inv(EMPTY, {});
    FoundIdentity(EMPTY.identities, "google", "1");
    ResolveCases(EMPTY, {}, FIRST, u, i, 1);
  }

  lemma FindsAnn(s: Store, issued: set<string>, u: Id, i: Id, email: string, updatedAt: Option<int>)
    requires Inv(s, issued) && HasAnn(s, u, i, email, updatedAt)
    ensures FindIdentity(s.identities, "google", "1") == Some(i)
  {
    assert i in s.identities;
    FindIdentityIs(s.identities, i);
  }

  lemma Moves(s: Store, issued: set<string>, u: Id, i: Id, u': Id, i': Id)
    requires Inv(s, issued) && HasAnn(s, u, i, "ann@old", None) && Unused(s, u') && Unused(s, i') && u' != i'
    ensures var a := Resolve(s, SECOND, u', i', 2);
            a.result == Ok(u) && HasAnn(a.store, u, i, "ann@new", Some(2)) && a.store.tokens == s.tokens
  {
    FindsAnn(s, issued, u, i, "ann@old", None);
    ResolveCases(s, issued, SECOND, u', i', 2);
  }

  lemma Returns(s: Store, issued: set<string>, u: Id, i: Id, u': Id, i': Id)
    requires Inv(s, issued) && HasAnn(s, u, i, "ann@new", Some(2)) && Unused(s, u') && Unused(s, i') && u' != i'
    ensures Resolve(s, FIRST, u', i', 3) == Outcome(s, Ok(u))
  {
    FindsAnn(s, issued, u, i, "ann@new", Some(2));
    ResolveCases(s, issued, FIRST, u', i', 3);
  }

  /** A callback whose claim resolves and whose token id is new is served, and the history goes on with it. */
  lemma SignsIn(log: seq<Event>, claim: Claim, userId: Id, identityId: Id, now: int, mint: Mint)
    returns (longer: seq<Event>)
    requires History(log) && FreshFor(After(EMPTY, log), Issued(log), OpCallback(claim, userId, identityId, now, mint))
    requires Resolve(After(EMPTY, log), claim, userId, identityId, now).result.Ok?
    requires Resolve(After(EMPTY, log), claim, userId, identityId, now).store.tokens == After(EMPTY, log).tokens
    ensures |longer| == |log| + 1 && longer[..|log|] == log && longer[|log|].result.Ok?
    ensures longer[|log|].op == OpCallback(claim, userId, identityId, now, mint)
    ensures History(longer)
    ensures var r, s' := Resolve(After(EMPTY, log), claim, userId, identityId, now), After(EMPTY, longer);
            SameAccounts(r.store, s') && s'.tokens.Keys == r.store.tokens.Keys + {mint.id}
  {
    var s := After(EMPTY, log);
    var r := Resolve(s, claim, userId, identityId, now);
    InsertSucceeds(r.store, r.result.value, mint);
    var a := Callback(s, claim, userId, identityId, now, mint);
    assert a == GenerateBundle(r.store, r.result.value, mint);
    var e := Event(OpCallback(claim, userId, identityId, now, mint), a.result);
    assert Apply(s, e.op) == a;
    longer := log + [e];
    assert longer[..|longer| - 1] == log && longer[|longer| - 1] == e;
  }

  lemma InsertSucceeds(s: Store, userId: Id, mint: Mint)
    requires mint.id !in s.tokens
    ensures var a := GenerateBundle(s, userId, mint);
            a.result.Ok? && SameAccounts(s, a.store) && a.store.tokens.Keys == s.tokens.Keys + {mint.id}
  {
    BundleKeepsAccounts(s, userId, mint);
  }

  ghost predicate Distinct(ids: seq<Id>) {
    forall a, b :: 0 <= a < b < |ids| ==> ids[a] != ids[b]
  }

  lemma SignsInFirst(u: Id, i: Id, mint: Mint) returns (log: seq<Event>)
    requires u != i && mint.id != u && mint.id != i
    ensures History(log) && |log| == 1 && log[0].result.Ok? && log[0].op == OpCallback(FIRST, u, i, 1, mint)
    ensures HasAnn(After(EMPTY, log), u, i, "ann@old", None) && After(EMPTY, log).tokens.Keys == {mint.id}
  {
    SignsUp(u, i);
    log := SignsIn([], FIRST, u, i, 1, mint);
  }

  lemma SignsInSecond(first: seq<Event>, u: Id, i: Id, u': Id, i': Id, used: Id, mint: Mint) returns (log: seq<Event>)
    requires History(first) && HasAnn(After(EMPTY, first), u, i, "ann@old", None)
    requires After(EMPTY, first).tokens.Keys == {used} && Distinct([u, i, u', i', used, mint.id])
    ensures History(log) && |log| == |first| + 1 && log[..|first|] == first
    ensures log[|first|].result.Ok? && log[|first|].op == OpCallback(SECOND, u', i', 2, mint)
    ensures HasAnn(After(EMPTY, log), u, i, "ann@new", Some(2)) && After(EMPTY, log).tokens.Keys == {used, mint.id}
  {
    InvOverHistory(first);
    DistinctSix(u, i, u', i', used, mint.id);
    Moves(After(EMPTY, first), Issued(first), u, i, u', i');
    log := SignsIn(first, SECOND, u', i', 2, mint);
  }

  lemma DistinctSix(a: Id, b: Id, c: Id, d: Id, e: Id, f: Id)
    requires Distinct([a, b, c, d, e, f])
    ensures a != b && c != d && a != c && a != d && b != c && b != d
    ensures e !in {a, b, c, d} && f !in {a, b, c, d, e}
  {
    var ids := [a, b, c, d, e, f];
    assert ids[0] != ids[1] && ids[0] != ids[2] && ids[0] != ids[3] && ids[0] != ids[4] && ids[0] != ids[5];
    assert ids[1] != ids[2] && ids[1] != ids[3] && ids[1] != ids[4] && ids[1] != ids[5];
    assert ids[2] != ids[3] && ids[2] != ids[4] && ids[2] != ids[5] && ids[3] != ids[4] && ids[3] != ids[5];
    assert ids[4] != ids[5];
  }

  /**
   An instance, a history of three sign-ins: as ann@old, as ann@new, and as ann@old again. All are
   served, and Ann keeps ann@new.
   */
  lemma StaleEmailExample(u: Id, i: Id, u': Id, i': Id, first: Mint, second: Mint, third: Mint)
    returns (log: seq<Event>)
    requires Distinct([u, i, u', i', first.id, second.id]) && third.id !in {u, i, u', i', first.id, second.id}
    ensures History(log) && |log| == 3 && log[0].result.Ok? && log[1].result.Ok? && log[2].result.Ok?
    ensures log[0].op == OpCallback(FIRST, u, i, 1, first)
    ensures log[1].op == OpCallback(SECOND, u', i', 2, second)
    ensures log[2].op == OpCallback(FIRST, u', i', 3, third)
    ensures var s := After(EMPTY, log); u in s.users && s.users[u].email == SECOND.email != FIRST.email
  {
    DistinctSix(u, i, u', i', first.id, second.id);
    var one := SignsInFirst(u, i, first);
    var two := SignsInSecond(one, u, i, u', i', first.id, second);
    InvOverHistory(two);
    Returns(After(EMPTY, two), Issued(two), u, i, u', i');
    log := SignsIn(two, FIRST, u', i', 3, third);
    assert log[0] == two[0] == one[0] && log[1] == two[1];
  }
}
