/**
 Verification codes and password logins, told from the history of requests alone: who registered
 with which password, which code was the last one generated for each user, and who was verified.
 A code is accepted exactly when it is its user's last one and the user is still to be verified; a
 password login succeeds exactly when the password is the registered one and its user was verified.
 */
module CodeHistory {
  import opened Wrappers
  import opened Model
  import opened Operations
  import opened Accounts
  import opened AccountHistory
  import TokenEffects
  import TokenHistory
  import Uuids

  datatype Credential = Credential(userId: Id, password: string)

  /** Who registered under each e-mail address, and with which password. */
  function Registered(log: seq<Event>): map<string, Credential> {
    if log == [] then map[]
    else
      var before, e := Registered(log[..|log| - 1]), log[|log| - 1];
      if e.op.OpRegister? && e.result.Ok? then before[e.op.email := Credential(e.op.userId, e.op.password)] else before
  }

  /** The event generated a code for the user and delivered it. */
  predicate Delivers(e: Event, userId: Id) {
    || (e.op.OpRegister? && e.result == Ok(Account(userId)))
    || (e.op.OpResend? && e.result == Ok(Sent(userId)))
  }

  /** The last code delivered to each user. */
  function LastCode(log: seq<Event>): map<Id, string> {
    if log == [] then map[]
    else
      var before, e := LastCode(log[..|log| - 1]), log[|log| - 1];
      if e.op.OpRegister? && e.result.Ok? && e.result.value.Account? then before[e.result.value.userId := e.op.code]
      else if e.op.OpResend? && e.result.Ok? && e.result.value.Sent? then before[e.result.value.userId := e.op.code]
      else before
  }

  /** The users whose code was accepted. */
  function VerifiedBy(log: seq<Event>): set<Id> {
    if log == [] then {}
    else
      var before, e := VerifiedBy(log[..|log| - 1]), log[|log| - 1];
      if e.op.OpVerify? && e.result.Ok? && e.result.value.Account? then before + {e.result.value.userId} else before
  }

  /** The code rows are the last codes of the users still to be verified. */
  ghost predicate CodesRecorded(codes: map<Id, Code>, last: map<Id, string>, done: set<Id>) {
    && (forall c :: c in codes ==>
          codes[c].userId in last && codes[c].hash == Sha256(last[codes[c].userId]) && codes[c].userId !in done)
    && (forall u :: u in last && u !in done ==> exists c :: IsCodeOf(codes, c, u))
    && done <= last.Keys
  }

  ghost predicate HasPassword(users: map<Id, User>, u: Id) {
    u in users && users[u].passwordHash.Some?
  }

  /** The users with a password are the registered ones, verified exactly if their code was accepted. */
  ghost predicate UsersRecorded(users: map<Id, User>, registered: map<string, Credential>, done: set<Id>) {
    && (forall u :: HasPassword(users, u) ==>
          users[u].email in registered && registered[users[u].email].userId == u
          && (users[u].emailVerified <==> u in done))
    && (forall email :: email in registered ==>
          HasEmail(users, registered[email].userId, email)
          && users[registered[email].userId].passwordHash == Some(Bcrypt(registered[email].password)))
  }

  // ---------------------------------------------------------------- one request

  lemma RegisterRecorded(s: Store, issued: set<string>, registered: map<string, Credential>, last: map<Id, string>,
                         done: set<Id>,
                         name: string, email: string, password: string, userId: Id, codeId: Id, code: string, now: int)
    requires FreshFor(s, issued, OpRegister(name, email, password, userId, codeId, code, now))
    requires CodesRecorded(s.codes, last, done) && UsersRecorded(s.users, registered, done)
    requires last.Keys <= s.users.Keys && !EmailTaken(s.users, email, None)
    ensures var s' := Register(s, name, email, password, userId, codeId, code, now).store;
            CodesRecorded(s'.codes, last[userId := code], done)
            && UsersRecorded(s'.users, registered[email := Credential(userId, password)], done)
            && last.Keys + {userId} <= s'.users.Keys
  {
    RegisterCases(s, issued, name, email, password, userId, codeId, code, now);
    var s' := Register(s, name, email, password, userId, codeId, code, now).store;
    NewCodeRecorded(s.codes, last, done, codeId, userId, code, now);
    NewUserRecorded(s.users, registered, done, userId, s'.users[userId], password);
  }

  lemma NewUserRecorded(users: map<Id, User>, registered: map<string, Credential>, done: set<Id>,
                        userId: Id, user: User, password: string)
    requires UsersRecorded(users, registered, done) && userId !in users && userId !in done
    requires !EmailTaken(users, user.email, None) && user.passwordHash == Some(Bcrypt(password)) && !user.emailVerified
    ensures UsersRecorded(users[userId := user], registered[user.email := Credential(userId, password)], done)
  {
    forall u | HasPassword(users[userId := user], u) && u != userId
      ensures HasPassword(users, u) && users[u].email != user.email
    {
      assert !HasEmail(users, u, user.email);
    }
    forall e | e in registered ensures e != user.email {
      assert HasEmail(users, registered[e].userId, e);
    }
  }

  /** A code for a user who has no code row. */
  lemma NewCodeRecorded(codes: map<Id, Code>, last: map<Id, string>, done: set<Id>,
                        codeId: Id, userId: Id, code: string, now: int)
    requires userId !in done && codeId !in codes && done <= last.Keys
    requires forall c :: c in codes ==>
               codes[c].userId in last && codes[c].hash == Sha256(last[codes[c].userId]) && codes[c].userId !in done
               && codes[c].userId != userId
    requires forall u :: u in last && u !in done && u != userId ==> exists c :: IsCodeOf(codes, c, u)
    ensures var row := Code(userId, Sha256(code), now + CODE_LIFETIME, now);
            CodesRecorded(codes[codeId := row], last[userId := code], done)
  {
    var codes' := codes[codeId := Code(userId, Sha256(code), now + CODE_LIFETIME, now)];
    forall u | u in last[userId := code] && u !in done ensures exists c :: IsCodeOf(codes', c, u) {
      if u == userId {
        assert IsCodeOf(codes', codeId, u);
      } else {
        var c :| IsCodeOf(codes, c, u);
        assert IsCodeOf(codes', c, u);
      }
    }
  }

  lemma ResendRecorded(s: Store, issued: set<string>, last: map<Id, string>, done: set<Id>,
                       email: string, codeId: Id, code: string, now: int)
    requires Inv(s, issued) && FreshFor(s, issued, OpResend(email, codeId, code, now))
    requires CodesRecorded(s.codes, last, done)
    ensures var a := Resend(s, email, codeId, code, now);
            a.result.Ok? && a.store.users == s.users
            && (a.result.value.Sent? ==>
                  var u := a.result.value.userId;
                  u in s.users && CodesRecorded(a.store.codes, last[u := code], done))
            && (!a.result.value.Sent? ==> a.store == s)
  {
    ResendCases(s, issued, email, codeId, code, now);
    var found := FindByEmail(s.users, email);
    if found.Some? && Unverified(s.users, found.value) {
      var others := CodesWithout(s.codes, found.value);
      var c :| IsCodeOf(s.codes, c, found.value);
      forall u | u in last && u !in done && u != found.value ensures exists c :: IsCodeOf(others, c, u) {
        var d :| IsCodeOf(s.codes, d, u);
        assert IsCodeOf(others, d, u);
      }
      NewCodeRecorded(others, last, done, codeId, found.value, code, now);
    }
  }

  lemma VerifyRecorded(s: Store, issued: set<string>, registered: map<string, Credential>, last: map<Id, string>,
                       done: set<Id>,
                       code: string, now: int)
    requires Inv(s, issued) && CodesRecorded(s.codes, last, done) && UsersRecorded(s.users, registered, done)
    ensures var a := Verify(s, code, now);
            if a.result.Ok? then
              a.result.value.Account?
              && var u := a.result.value.userId;
              u in last && last[u] == code && u !in done
              && CodesRecorded(a.store.codes, last, done + {u}) && UsersRecorded(a.store.users, registered, done + {u})
              && a.store.users.Keys == s.users.Keys
            else a == Outcome(s, Err(InvalidCode)) && forall u :: u in last && u !in done ==> last[u] != code
  {
    VerifyCases(s, issued, code, now);
    var a := Verify(s, code, now);
    if a.result.Ok? {
      var id := FindCode(s.codes, Sha256(code)).value;
      ConsumedRecorded(s.codes, last, done, id);
      VerifiedUserRecorded(s.users, registered, done, s.codes[id].userId, now);
    } else {
      forall u | u in last && u !in done ensures last[u] != code {
        var c :| IsCodeOf(s.codes, c, u);
        assert s.codes[c].hash == Sha256(last[u]);
      }
    }
  }

  lemma VerifiedUserRecorded(users: map<Id, User>, registered: map<string, Credential>, done: set<Id>, u: Id, now: int)
    requires UsersRecorded(users, registered, done) && HasPassword(users, u)
    ensures UsersRecorded(users[u := users[u].(emailVerified := true, updatedAt := Some(now))], registered, done + {u})
  {
    forall v | HasPassword(users[u := users[u].(emailVerified := true, updatedAt := Some(now))], v)
      ensures HasPassword(users, v)
    {
    }
  }

  lemma ConsumedRecorded(codes: map<Id, Code>, last: map<Id, string>, done: set<Id>, id: Id)
    requires CodesRecorded(codes, last, done) && id in codes
    requires forall c, d :: c in codes && d in codes && codes[c].userId == codes[d].userId ==> c == d
    ensures CodesRecorded(codes - {id}, last, done + {codes[id].userId})
  {
    forall u | u in last && u !in done + {codes[id].userId} ensures exists c :: IsCodeOf(codes - {id}, c, u) {
      var c :| IsCodeOf(codes, c, u);
      assert IsCodeOf(codes - {id}, c, u);
    }
  }

  /** Changing or adding users without a password does not concern the record. */
  lemma OthersRecorded(users: map<Id, User>, users': map<Id, User>, registered: map<string, Credential>, done: set<Id>)
    requires UsersRecorded(users, registered, done)
    requires forall u :: HasPassword(users, u) ==> u in users' && users'[u] == users[u]
    requires forall u :: HasPassword(users', u) ==> HasPassword(users, u)
    ensures UsersRecorded(users', registered, done)
  {
    forall email | email in registered
      ensures HasEmail(users', registered[email].userId, email)
              && users'[registered[email].userId].passwordHash == Some(Bcrypt(registered[email].password))
    {
      assert HasPassword(users, registered[email].userId);
    }
  }

  lemma ResolveRecorded(s: Store, issued: set<string>, registered: map<string, Credential>, done: set<Id>,
                        claim: Claim, userId: Id, identityId: Id, now: int)
    requires Inv(s, issued) && Unused(s, userId) && Unused(s, identityId) && userId != identityId
    requires UsersRecorded(s.users, registered, done)
    ensures var s' := Resolve(s, claim, userId, identityId, now).store;
            s'.codes == s.codes && s.users.Keys <= s'.users.Keys && UsersRecorded(s'.users, registered, done)
  {
    ResolveCases(s, issued, claim, userId, identityId, now);
    ResolvedRecorded(s, registered, done, claim, userId, identityId, now, Resolve(s, claim, userId, identityId, now));
  }

  lemma ResolvedRecorded(s: Store, registered: map<string, Credential>, done: set<Id>,
                         claim: Claim, userId: Id, identityId: Id, now: int, a: Outcome<Id>)
    requires ResolvedTo(s, claim, userId, identityId, now, a) && Unused(s, userId)
             && UsersRecorded(s.users, registered, done)
    ensures a.store.codes == s.codes && s.users.Keys <= a.store.users.Keys
            && UsersRecorded(a.store.users, registered, done)
  {
    OthersRecorded(s.users, a.store.users, registered, done);
  }

  // ---------------------------------------------------------------- histories

  ghost predicate IsRecord(s: Store, log: seq<Event>) {
    && CodesRecorded(s.codes, LastCode(log), VerifiedBy(log))
    && UsersRecorded(s.users, Registered(log), VerifiedBy(log))
    && LastCode(log).Keys <= s.users.Keys
  }

  /** How the record grows by one served request. */
  lemma RecordGrows(init: seq<Event>, e: Event)
    requires e.result.Ok?
    ensures var log := init + [e];
            && (e.op.OpRegister? && e.result.value.Account? ==>
                  Registered(log) == Registered(init)[e.op.email := Credential(e.op.userId, e.op.password)]
                  && LastCode(log) == LastCode(init)[e.result.value.userId := e.op.code])
            && (e.op.OpResend? && e.result.value.Sent? ==>
                  LastCode(log) == LastCode(init)[e.result.value.userId := e.op.code])
            && (e.op.OpResend? && !e.result.value.Sent? ==> LastCode(log) == LastCode(init))
            && (e.op.OpVerify? && e.result.value.Account? ==>
                  VerifiedBy(log) == VerifiedBy(init) + {e.result.value.userId})
            && (!e.op.OpRegister? ==> Registered(log) == Registered(init))
            && (!e.op.OpRegister? && !e.op.OpResend? ==> LastCode(log) == LastCode(init))
            && (!e.op.OpVerify? ==> VerifiedBy(log) == VerifiedBy(init))
  {
    var log := init + [e];
    assert log[..|log| - 1] == init && log[|log| - 1] == e;
  }

  /** A refused request adds nothing. */
  lemma RecordStays(init: seq<Event>, e: Event)
    requires e.result.Err?
    ensures var log := init + [e];
            Registered(log) == Registered(init) && LastCode(log) == LastCode(init)
              && VerifiedBy(log) == VerifiedBy(init)
  {
    var log := init + [e];
    assert log[..|log| - 1] == init && log[|log| - 1] == e;
  }

  lemma StepRecorded(init: seq<Event>, e: Event, s: Store, issued: set<string>)
    requires Inv(s, issued) && Apply(s, e.op).result == e.result && (e.result.Ok? ==> FreshFor(s, issued, e.op))
    requires IsRecord(s, init)
    ensures IsRecord(Apply(s, e.op).store, init + [e])
  {
    var registered, last, done := Registered(init), LastCode(init), VerifiedBy(init);
    if e.result.Err? {
      RecordStays(init, e);
      TokenEffects.FailureKeepsStore(s, e.op);
    } else {
      RecordGrows(init, e);
      match e.op
      case OpRegister(name, email, password, userId, codeId, code, now) =>
        RegisterCases(s, issued, name, email, password, userId, codeId, code, now);
        RegisterRecorded(s, issued, registered, last, done, name, email, password, userId, codeId, code, now);
      case OpVerify(code, now) => VerifyRecorded(s, issued, registered, last, done, code, now);
      case OpResend(email, codeId, code, now) => ResendRecorded(s, issued, last, done, email, codeId, code, now);
      case OpCallback(claim, userId, identityId, now, mint) =>
        ResolveRecorded(s, issued, registered, done, claim, userId, identityId, now);
        CallbackOnAccounts(s, claim, userId, identityId, now, mint);
      case _ => TokenRequestsKeepAccounts(s, e.op);
    }
  }

  lemma {:induction false} RecordOverHistory(log: seq<Event>)
    requires History(log)
    ensures IsRecord(After(EMPTY, log), log)
  {
    if log != [] {
      var init := log[..|log| - 1];
      RecordOverHistory(init);
      InvOverHistory(init);
      StepRecorded(init, log[|log| - 1], After(EMPTY, init), Issued(init));
      assert log == init + [log[|log| - 1]];
    }
  }

  /** The n-th event of a history on the store and the record before it. */
  lemma EventAt(log: seq<Event>, n: nat) returns (s: Store)
    requires History(log) && n < |log|
    ensures var init := log[..n];
            History(init) && s == After(EMPTY, init) && Inv(s, Issued(init)) && IsRecord(s, init)
            && Apply(s, log[n].op).result == log[n].result
            && (log[n].result.Ok? ==> FreshFor(s, Issued(init), log[n].op))
  {
    HistoryPrefix(log, n + 1);
    assert log[..n + 1][..n] == log[..n];
    s := After(EMPTY, log[..n]);
    InvOverHistory(log[..n]);
    RecordOverHistory(log[..n]);
  }

  /**
   A code is accepted for a user exactly when it is the last code delivered to that user and none
   of theirs was accepted before.
   */
  lemma VerifySucceedsIff(log: seq<Event>, n: nat, userId: Id)
    requires History(log) && n < |log| && log[n].op.OpVerify?
    ensures var last := LastCode(log[..n]);
            log[n].result == Ok(Account(userId)) <==>
              userId in last && last[userId] == log[n].op.code && userId !in VerifiedBy(log[..n])
    ensures if log[n].result.Ok? then log[n].result.value.Account? else log[n].result == Err(InvalidCode)
  {
    var s := EventAt(log, n);
    var OpVerify(code, now) := log[n].op;
    VerifyRecorded(s, Issued(log[..n]), Registered(log[..n]), LastCode(log[..n]), VerifiedBy(log[..n]), code, now);
    if log[n].result.Ok? {
      SameCodeSameUser(s, log[..n], code, userId, log[n].result.value.userId);
    }
  }

  /** Two users to be verified never have the same last code. */
  /** The last code delivered to someone still to be verified. */
  ghost predicate IsAwaited(log: seq<Event>, code: string) {
    exists u :: u in LastCode(log) && u !in VerifiedBy(log) && LastCode(log)[u] == code
  }

  /** A code that nobody still to be verified got last is refused as invalid, and no other is refused. */
  lemma CodeRefusedIff(log: seq<Event>, n: nat)
    requires History(log) && n < |log| && log[n].op.OpVerify?
    ensures log[n].result.Err? ==> log[n].result == Err(InvalidCode)
    ensures log[n].result.Ok? <==> IsAwaited(log[..n], log[n].op.code)
  {
    var s := EventAt(log, n);
    var OpVerify(code, now) := log[n].op;
    VerifyCases(s, Issued(log[..n]), code, now);
    var last, done := LastCode(log[..n]), VerifiedBy(log[..n]);
    forall u | u in last && u !in done && last[u] == code ensures log[n].result.Ok? {
      VerifySucceedsIff(log, n, u);
    }
    if log[n].result.Ok? {
      VerifySucceedsIff(log, n, log[n].result.value.userId);
    }
  }

  lemma SameCodeSameUser(s: Store, init: seq<Event>, code: string, u: Id, v: Id)
    requires IsRecord(s, init) && Inv(s, Issued(init))
    ensures var last, done := LastCode(init), VerifiedBy(init);
            u in last && v in last && last[u] == last[v] == code && u !in done && v !in done ==> u == v
  {
    var last, done := LastCode(init), VerifiedBy(init);
    if u in last && v in last && last[u] == last[v] == code && u !in done && v !in done {
      var c :| IsCodeOf(s.codes, c, u);
      var d :| IsCodeOf(s.codes, d, v);
    }
  }

  lemma {:induction false} IssuedAt(log: seq<Event>, k: nat)
    requires k < |log|
    ensures IssuedBy(log[k]) <= Issued(log)
  {
    if k < |log| - 1 {
      IssuedAt(log[..|log| - 1], k);
    }
  }

  lemma IssuedOnce(log: seq<Event>, k: nat, q: nat)
    requires History(log) && k < q < |log|
    ensures IssuedBy(log[k]) !! IssuedBy(log[q])
  {
    IssuedAt(log[..q], k);
    var s := EventAt(log, q);
    NewlyIssued(s, Issued(log[..q]), log[q]);
  }

  lemma NewlyIssued(s: Store, issued: set<string>, e: Event)
    requires e.result.Ok? ==> FreshFor(s, issued, e.op)
    ensures IssuedBy(e) !! issued
  {
  }

  /** Where a user's last code was delivered, and that nothing was delivered to them since. */
  lemma {:induction false} LastDelivery(log: seq<Event>, u: Id) returns (q: nat)
    requires u in LastCode(log)
    ensures q < |log| && Delivers(log[q], u) && log[q].op.code == LastCode(log)[u]
    ensures forall m :: q < m < |log| ==> !Delivers(log[m], u)
  {
    var n := |log| - 1;
    if Delivers(log[n], u) {
      q := n;
    } else {
      q := LastDelivery(log[..n], u);
    }
  }

  /** A code superseded by a later delivery to the same user is never accepted. */
  lemma SupersededCodeRefused(log: seq<Event>, k: nat, m: nat, j: nat, userId: Id)
    requires History(log) && k < m < j < |log|
    requires Delivers(log[k], userId) && Delivers(log[m], userId)
    requires log[j].op.OpVerify? && log[j].op.code == log[k].op.code
    ensures log[j].result == Err(InvalidCode)
  {
    VerifySucceedsIff(log, j, userId);
    assert Delivers(log[..j][m], userId);
    if log[j].result.Ok? {
      var u := log[j].result.value.userId;
      VerifySucceedsIff(log, j, u);
      var q := LastDelivery(log[..j], u);
      SameIssue(log, k, q);
    }
  }

  /** Two requests that generated the same code are the same request. */
  lemma SameIssue(log: seq<Event>, k: nat, q: nat)
    requires History(log) && k < |log| && q < |log|
    requires IssuedBy(log[k]) != {} && IssuedBy(log[k]) == IssuedBy(log[q])
    ensures k == q
  {
    if k < q {
      IssuedOnce(log, k, q);
    } else if q < k {
      IssuedOnce(log, q, k);
    }
  }

  // ---------------------------------------------------------------- password logins

  /**
   A password login succeeds exactly when the address was registered with that password, its user's
   code was accepted, and the generated token id is new; it answers for that user.
   */
  lemma LoginSucceedsIff(log: seq<Event>, n: nat)
    requires History(log) && n < |log| && log[n].op.OpLogin?
    ensures var op, registered := log[n].op, Registered(log[..n]);
            log[n].result.Ok? <==>
              op.email in registered && registered[op.email].password == op.password
              && registered[op.email].userId in VerifiedBy(log[..n]) && op.mint.id !in After(EMPTY, log[..n]).tokens
    ensures log[n].result.Ok? ==>
              log[n].result.value == Bundle(Registered(log[..n])[log[n].op.email].userId, MintedRaw(log[n].op.mint))
  {
    var s := EventAt(log, n);
    var OpLogin(email, password, mint) := log[n].op;
    NextLogin(s, Issued(log[..n]), Registered(log[..n]), VerifiedBy(log[..n]), email, password, mint);
  }

  /**
   The answer to a password login, from who registered, whose code was accepted, and whether the
   generated token id is taken: an address whose user is not verified yet is told so whatever the
   password, and every other refusal is the same.
   */
  function LoginAnswer(registered: map<string, Credential>, done: set<Id>, taken: bool,
                       email: string, password: string, mint: Mint): Result<Reply>
  {
    if email !in registered then Err(WrongCredentials)
    else if registered[email].userId !in done then Err(EmailNotVerified)
    else if registered[email].password != password then Err(WrongCredentials)
    else if taken then Err(UniqueViolation)
    else Ok(Bundle(registered[email].userId, MintedRaw(mint)))
  }

  /** In every history every password login gets that answer. */
  lemma LoginAnswered(log: seq<Event>, n: nat)
    requires History(log) && n < |log| && log[n].op.OpLogin?
    ensures var OpLogin(email, password, mint) := log[n].op;
            var taken := TokenHistory.IdMinted(TokenHistory.Minted(log[..n]), mint.id);
            log[n].result == LoginAnswer(Registered(log[..n]), VerifiedBy(log[..n]), taken, email, password, mint)
  {
    var s := EventAt(log, n);
    var OpLogin(email, password, mint) := log[n].op;
    HistoryIsFaithful(log);
    FaithfulPrefix(EMPTY, log, n);
    TokenHistory.IdsAgree(log[..n], mint.id);
    NextLogin(s, Issued(log[..n]), Registered(log[..n]), VerifiedBy(log[..n]), email, password, mint);
  }

  lemma NextLogin(s: Store, issued: set<string>, registered: map<string, Credential>, done: set<Id>,
                  email: string, password: string, mint: Mint)
    requires Inv(s, issued) && UsersRecorded(s.users, registered, done)
    ensures Login(s, email, password, mint).result
         == LoginAnswer(registered, done, mint.id in s.tokens, email, password, mint)
  {
    FoundByEmail(s.users, email);
    if email in registered {
      FindByEmailIs(s.users, registered[email].userId, email);
      assert HasPassword(s.users, registered[email].userId);
    }
    var found := FindByEmail(s.users, email);
    if found.Some? && s.users[found.value].passwordHash.Some? {
      assert HasPassword(s.users, found.value);
    }
  }

  /** The answer to a resend: a code for a registered address whose user is still to be verified, or nothing. */
  function ResendAnswer(registered: map<string, Credential>, done: set<Id>, taken: bool, email: string): Result<Reply> {
    if email !in registered || registered[email].userId in done then Ok(Nothing)
    else if taken then Err(UniqueViolation)
    else Ok(Sent(registered[email].userId))
  }

  /** In every history every resend gets that answer, `taken` being whether the generated code id has a row. */
  lemma ResendAnswered(log: seq<Event>, n: nat)
    requires History(log) && n < |log| && log[n].op.OpResend?
    ensures var taken := log[n].op.codeId in CodesWithout(After(EMPTY, log[..n]).codes,
                                                          UserOf(Registered(log[..n]), log[n].op.email));
            log[n].result == ResendAnswer(Registered(log[..n]), VerifiedBy(log[..n]), taken, log[n].op.email)
  {
    var s := EventAt(log, n);
    var OpResend(email, codeId, code, now) := log[n].op;
    AnswerOfResend(s, email, codeId, code, now);
    NextResend(s, Issued(log[..n]), Registered(log[..n]), VerifiedBy(log[..n]), email, codeId, code, now);
  }

  function UserOf(registered: map<string, Credential>, email: string): Id {
    if email in registered then registered[email].userId else Uuids.NIL
  }

  lemma AnswerOfResend(s: Store, email: string, codeId: Id, code: string, now: int)
    ensures Apply(s, OpResend(email, codeId, code, now)) == Resend(s, email, codeId, code, now)
  {
  }

  lemma NextResend(s: Store, issued: set<string>, registered: map<string, Credential>, done: set<Id>,
                   email: string, codeId: Id, code: string, now: int)
    requires Inv(s, issued) && UsersRecorded(s.users, registered, done)
    ensures Resend(s, email, codeId, code, now).result
         == ResendAnswer(registered, done, codeId in CodesWithout(s.codes, UserOf(registered, email)), email)
  {
    FoundByEmail(s.users, email);
    if email in registered {
      FindByEmailIs(s.users, registered[email].userId, email);
      assert HasPassword(s.users, registered[email].userId);
    }
    var found := FindByEmail(s.users, email);
    if found.Some? {
      assert Passwordless(s.users, found.value) || HasPassword(s.users, found.value);
    }
  }

  lemma {:induction false} VerificationOf(log: seq<Event>, u: Id) returns (i: nat)
    requires u in VerifiedBy(log)
    ensures i < |log| && log[i].op.OpVerify? && log[i].result == Ok(Account(u))
  {
    var n := |log| - 1;
    if log[n].op.OpVerify? && log[n].result == Ok(Account(u)) {
      i := n;
    } else {
      i := VerificationOf(log[..n], u);
    }
  }

  /**
   Every successful password login is preceded by an accepted code of that user, and that in turn
   by the registration or resend that delivered the code to them.
   */
  lemma LoginAfterVerification(log: seq<Event>, n: nat) returns (k: nat, i: nat)
    requires History(log) && n < |log| && log[n].op.OpLogin? && log[n].result.Ok?
    ensures k < i < n
    ensures log[n].result.value.Bundle? && Delivers(log[k], log[n].result.value.userId)
    ensures log[i].op.OpVerify? && log[i].op.code == log[k].op.code
            && log[i].result == Ok(Account(log[n].result.value.userId))
  {
    LoginSucceedsIff(log, n);
    var userId := log[n].result.value.userId;
    i := VerificationOf(log[..n], userId);
    VerifySucceedsIff(log, i, userId);
    k := LastDelivery(log[..i], userId);
  }
}
