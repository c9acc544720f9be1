/**
 The statement-by-statement verifies and resends against the atomic requests. In whatever state the
 others have left the tables, a request whose statements run without interruption leaves users'
 flags and codes as its atomic counterpart does. And where the statements of others come in between,
 a resend that commits read its user as unverified after it began; if that user is verified by then,
 a verify of theirs committed meanwhile.
 */
module CodeRuns {
  import opened Wrappers
  import opened VerifySteps
  import opened CodeRaces
  import Model
  import Operations
  import Accounts

  // ---------------------------------------------------------------- the tables of the two models

  function Flags(users: map<Id, Model.User>): map<Id, bool> {
    map u | u in users :: users[u].emailVerified
  }

  function Rows(codes: map<Id, Model.Code>): map<Id, Row> {
    map c | c in codes :: Row(codes[c].userId, codes[c].hash.text)
  }

  /** The users' flags and the code rows are those of the store, whose codes are stored by their hash. */
  ghost predicate Projects(store: Model.Store, s: System) {
    && (forall c :: c in store.codes ==> store.codes[c].hash.Sha256?)
    && s.verified == Flags(store.users) && s.codes == Rows(store.codes)
  }

  /** After the steps the tables are those of the store, and the same transactions are open as before. */
  ghost predicate LeadsTo(schedule: seq<Step>, s: System, store: Model.Store) {
    Run(schedule).Some? && Projects(store, Run(schedule).value) && Run(schedule).value.txs == s.txs
  }

  // ---------------------------------------------------------------- whole requests

  lemma TwoSteps(schedule: seq<Step>, s: System, first: Step, s1: System, second: Step, s2: System)
    requires Run(schedule) == Some(s) && Enabled(s, first) && s1 == Next(s, first)
    requires Enabled(s1, second) && s2 == Next(s1, second)
    ensures Run(schedule + [first, second]) == Some(s2)
  {
    var one := Continue(schedule, s, first, s1);
    var two := Continue(one, s1, second, s2);
    assert two == schedule + [first, second];
  }

  /** A request can begin whatever else is open. */
  lemma BeginAnytime(schedule: seq<Step>, t: nat, job: Job)
    requires Run(schedule).Some? && t !in Run(schedule).value.txs
    ensures var s := Run(schedule).value;
            Run(schedule + [Begin(t, job)]) == Some(s.(txs := s.txs[t := Tx(job, Begun, {}, {}, None)]))
  {
    var s := Run(schedule).value;
    var _ := Continue(schedule, s, Begin(t, job), Next(s, Begin(t, job)));
  }

  /** And stop at any point, without an effect. */
  lemma AbortAnytime(schedule: seq<Step>, t: nat)
    requires Run(schedule).Some? && t in Run(schedule).value.txs
    ensures var s := Run(schedule).value; Run(schedule + [Abort(t)]) == Some(s.(txs := s.txs - {t}))
  {
    var s := Run(schedule).value;
    var _ := Continue(schedule, s, Abort(t), Next(s, Abort(t)));
  }

  // ---------------------------------------------------------------- registering

  /** A registration of a new address adds its user and code as the atomic request does. */
  lemma RegisterAgrees(schedule: seq<Step>, store: Model.Store, name: string, email: string, password: string,
                       userId: Id, codeId: Id, code: string, now: int)
    requires Run(schedule).Some? && Projects(store, Run(schedule).value)
    requires !Operations.EmailTaken(store.users, email, None) && userId !in store.users
    requires codeId !in Run(schedule).value.usedIds && code !in Run(schedule).value.usedCodes
    ensures Run(schedule + [Register(userId, codeId, code)]).Some?
    ensures var s, s' := Run(schedule).value, Run(schedule + [Register(userId, codeId, code)]).value;
            var a := Operations.Register(store, name, email, password, userId, codeId, code, now);
            a.result == Model.Ok(Model.Account(userId)) && Projects(a.store, s') && s'.txs == s.txs
  {
    var s := Run(schedule).value;
    RunIsOk(schedule);
    var step := Register(userId, codeId, code);
    var _ := Continue(schedule, s, step, Next(s, step));
    RegisteredStore(store, s, name, email, password, userId, codeId, code, now);
  }

  lemma RegisteredStore(store: Model.Store, s: System, name: string, email: string, password: string,
                        userId: Id, codeId: Id, code: string, now: int)
    requires Projects(store, s) && codeId !in store.codes
    requires !Operations.EmailTaken(store.users, email, None) && userId !in store.users
    ensures var a := Operations.Register(store, name, email, password, userId, codeId, code, now);
            && a.result == Model.Ok(Model.Account(userId))
            && (forall c :: c in a.store.codes ==> a.store.codes[c].hash.Sha256?)
            && Rows(a.store.codes) == s.codes[codeId := Row(userId, code)]
            && Flags(a.store.users) == s.verified[userId := false]
  {
    var a := Operations.Register(store, name, email, password, userId, codeId, code, now);
    assert a.store.codes.Keys == store.codes.Keys + {codeId};
    assert a.store.users.Keys == store.users.Keys + {userId};
  }

  // ---------------------------------------------------------------- verifying

  /** The statements of a verify that nobody interrupts. */
  function VerifyStatements(t: nat, code: string, found: bool): seq<Step> {
    [Begin(t, VerifyJob(code)), FindToken(t)] + if found then [Commit(t)] else []
  }

  lemma CodeRows(store: Model.Store, s: System, code: string)
    requires Projects(store, s) && RowsOk(s)
    ensures var found := Operations.FindCode(store.codes, Model.Sha256(code));
            RowsWithCode(s.codes, code) == if found.Some? then {found.value} else {}
  {
    var found := Operations.FindCode(store.codes, Model.Sha256(code));
    Accounts.FoundCode(store.codes, Model.Sha256(code));
    forall c | c in s.codes ensures s.codes[c].code == code <==> store.codes[c].hash == Model.Sha256(code) {
    }
    if found.Some? {
      assert s.codes[found.value].code == code;
    }
  }

  lemma VerifiedStore(store: Model.Store, s: System, code: string, now: int, id: Id)
    requires Projects(store, s) && RowsOk(s)
    requires Operations.FindCode(store.codes, Model.Sha256(code)) == Some(id) && id in store.codes
    ensures var a := Operations.Verify(store, code, now);
            && a.result == Model.Ok(Model.Account(store.codes[id].userId))
            && a.store.codes == store.codes - {id}
            && Flags(a.store.users) == Flags(store.users)[store.codes[id].userId := true]
  {
    assert s.codes[id].userId in s.verified;
  }

  lemma FindsToken(s: System, t: nat, code: string, s1: System)
    requires t !in s.txs && Free(s, t, RowsWithCode(s.codes, code))
    requires s1 == s.(txs := s.txs[t := Tx(VerifyJob(code), Begun, {}, {}, None)])
    ensures Enabled(s1, FindToken(t))
    ensures var rows := RowsWithCode(s.codes, code);
            Next(s1, FindToken(t))
            == if rows == {} then s else s.(txs := s.txs[t := Tx(VerifyJob(code), Found, {}, rows, None)])
  {
    assert s1.txs - {t} == s.txs;
  }

  lemma CommitsVerify(s: System, t: nat, code: string, id: Id, s2: System)
    requires t !in s.txs && id in s.codes
    requires s2 == s.(txs := s.txs[t := Tx(VerifyJob(code), Found, {}, {id}, None)])
    ensures Enabled(s2, Commit(t))
    ensures var s' := Next(s2, Commit(t));
            && s'.codes == s.codes - {id} && s'.verified == s.verified[s.codes[id].userId := true]
            && s'.txs == s.txs && s'.consumed == s.consumed + [code]
  {
    assert id in s2.txs[t].held && id in s2.codes;
    assert OwnerOf(s2, s2.txs[t]) == Some(s.codes[id].userId);
    assert s2.txs - {t} == s.txs;
  }

  /**
   A verify that nobody interrupts leaves codes and flags as the atomic request does, and answers as
   it does; an unknown code ends it at once.
   */
  lemma VerifyAgrees(schedule: seq<Step>, store: Model.Store, t: nat, code: string, now: int)
    requires Run(schedule).Some? && Projects(store, Run(schedule).value) && t !in Run(schedule).value.txs
    requires Free(Run(schedule).value, t, RowsWithCode(Run(schedule).value.codes, code))
    ensures var a := Operations.Verify(store, code, now);
            var whole := schedule + VerifyStatements(t, code, a.result.Ok?);
            && LeadsTo(whole, Run(schedule).value, a.store)
            && (a.result.Err? ==> a.result.error == Model.InvalidCode && Run(whole) == Run(schedule))
  {
    RunIsOk(schedule);
    var s := Run(schedule).value;
    CodeRows(store, s, code);
    var found := Operations.FindCode(store.codes, Model.Sha256(code));
    Accounts.FoundCode(store.codes, Model.Sha256(code));
    var s2 := ReadsToken(schedule, s, t, code);
    if found.Some? {
      FoundVerifies(schedule, store, s, t, code, now, found.value, s2);
    }
  }

  lemma FoundVerifies(schedule: seq<Step>, store: Model.Store, s: System, t: nat, code: string, now: int,
                      id: Id, s2: System)
    requires Projects(store, s) && RowsOk(s) && t !in s.txs
    requires Operations.FindCode(store.codes, Model.Sha256(code)) == Some(id) && id in store.codes
    requires Run(schedule + VerifyStatements(t, code, false)) == Some(s2)
    requires s2 == s.(txs := s.txs[t := Tx(VerifyJob(code), Found, {}, {id}, None)])
    ensures var a := Operations.Verify(store, code, now);
            a.result.Ok? && LeadsTo(schedule + VerifyStatements(t, code, true), s, a.store)
  {
    VerifiedStore(store, s, code, now, id);
    CommitsVerify(s, t, code, id, s2);
    var all := Continue(schedule + VerifyStatements(t, code, false), s2, Commit(t), Next(s2, Commit(t)));
    assert all == schedule + VerifyStatements(t, code, true);
    assert Rows(store.codes - {id}) == Rows(store.codes) - {id};
  }

  lemma ReadsToken(schedule: seq<Step>, s: System, t: nat, code: string) returns (s2: System)
    requires Run(schedule) == Some(s) && t !in s.txs && Free(s, t, RowsWithCode(s.codes, code))
    ensures Run(schedule + VerifyStatements(t, code, false)) == Some(s2)
    ensures var rows := RowsWithCode(s.codes, code);
            s2 == if rows == {} then s else s.(txs := s.txs[t := Tx(VerifyJob(code), Found, {}, rows, None)])
  {
    var s1 := s.(txs := s.txs[t := Tx(VerifyJob(code), Begun, {}, {}, None)]);
    FindsToken(s, t, code, s1);
    s2 := Next(s1, FindToken(t));
    TwoSteps(schedule, s, Begin(t, VerifyJob(code)), s1, FindToken(t), s2);
    assert VerifyStatements(t, code, false) == [Begin(t, VerifyJob(code)), FindToken(t)];
  }

  // ---------------------------------------------------------------- resending

  /** The statements of a resend that nobody interrupts. */
  function ResendStatements(t: nat, userId: Id, codeId: Id, code: string, sent: bool): seq<Step> {
    [Begin(t, ResendJob(userId)), FindUser(t)]
    + if sent then [StartDelete(t), FinishDelete(t), Generate(t, codeId, code), Commit(t)] else []
  }

  lemma FindsUser(s: System, t: nat, userId: Id, s1: System)
    requires t !in s.txs && s1 == s.(txs := s.txs[t := Tx(ResendJob(userId), Begun, {}, {}, None)])
    ensures Enabled(s1, FindUser(t))
    ensures Next(s1, FindUser(t))
         == if Unverified(s, userId) then s.(txs := s.txs[t := Tx(ResendJob(userId), Read, {}, {}, None)]) else s
  {
    assert s1.txs - {t} == s.txs;
  }

  lemma DeletesRows(s: System, t: nat, userId: Id, s2: System)
    requires t !in s.txs && Free(s, t, RowsOfUser(s.codes, userId))
    requires s2 == s.(txs := s.txs[t := Tx(ResendJob(userId), Read, {}, {}, None)])
    ensures Enabled(s2, StartDelete(t)) && Enabled(Next(s2, StartDelete(t)), FinishDelete(t))
    ensures var rows := RowsOfUser(s.codes, userId);
            Next(Next(s2, StartDelete(t)), FinishDelete(t))
            == s.(txs := s.txs[t := Tx(ResendJob(userId), Cleared, rows, rows, None)])
  {
    var rows := RowsOfUser(s.codes, userId);
    assert rows * rows == rows;
  }

  lemma InsertsRow(s: System, t: nat, userId: Id, codeId: Id, code: string, rows: set<Id>, s4: System)
    requires t !in s.txs && codeId !in s.usedIds && code !in s.usedCodes
    requires s4 == s.(txs := s.txs[t := Tx(ResendJob(userId), Cleared, rows, rows, None)])
    ensures Enabled(s4, Generate(t, codeId, code)) && Enabled(Next(s4, Generate(t, codeId, code)), Commit(t))
    ensures var s' := Next(Next(s4, Generate(t, codeId, code)), Commit(t));
            && s'.codes == (s.codes - rows)[codeId := Row(userId, code)]
            && s'.verified == s.verified && s'.txs == s.txs && s'.consumed == s.consumed
  {
    var s5 := Next(s4, Generate(t, codeId, code));
    assert OwnerOf(s5, s5.txs[t]) == None;
    assert s5.txs - {t} == s.txs;
  }

  /** The whole of it from where the user was read as unverified. */
  lemma Replaces(schedule: seq<Step>, s: System, t: nat, userId: Id, codeId: Id, code: string, s2: System)
    requires Run(schedule) == Some(s2) && t !in s.txs && Free(s, t, RowsOfUser(s.codes, userId))
    requires s2 == s.(txs := s.txs[t := Tx(ResendJob(userId), Read, {}, {}, None)])
    requires codeId !in s.usedIds && code !in s.usedCodes
    ensures var rest := [StartDelete(t), FinishDelete(t), Generate(t, codeId, code), Commit(t)];
            var after := Run(schedule + rest);
            && after.Some? && after.value.txs == s.txs && after.value.verified == s.verified
            && after.value.codes == (s.codes - RowsOfUser(s.codes, userId))[codeId := Row(userId, code)]
  {
    DeletesRows(s, t, userId, s2);
    var s3 := Next(s2, StartDelete(t));
    var s4 := Next(s3, FinishDelete(t));
    TwoSteps(schedule, s2, StartDelete(t), s3, FinishDelete(t), s4);
    InsertsRow(s, t, userId, codeId, code, RowsOfUser(s.codes, userId), s4);
    var s5 := Next(s4, Generate(t, codeId, code));
    var cleared := schedule + [StartDelete(t), FinishDelete(t)];
    TwoSteps(cleared, s4, Generate(t, codeId, code), s5, Commit(t), Next(s5, Commit(t)));
    assert cleared + [Generate(t, codeId, code), Commit(t)]
        == schedule + [StartDelete(t), FinishDelete(t), Generate(t, codeId, code), Commit(t)];
  }

  lemma ResentStore(store: Model.Store, s: System, email: string, userId: Id, codeId: Id, code: string, now: int)
    requires Projects(store, s) && codeId !in store.codes
    requires Operations.FindByEmail(store.users, email) == Some(userId) && Unverified(s, userId)
    ensures var a := Operations.Resend(store, email, codeId, code, now);
            && a.result == Model.Ok(Model.Sent(userId)) && a.store.users == store.users
            && (forall c :: c in a.store.codes ==> a.store.codes[c].hash.Sha256?)
            && Rows(a.store.codes) == (s.codes - RowsOfUser(s.codes, userId))[codeId := Row(userId, code)]
  {
    assert !store.users[userId].emailVerified;
    var a := Operations.Resend(store, email, codeId, code, now);
    assert Rows(a.store.codes).Keys == ((s.codes - RowsOfUser(s.codes, userId))[codeId := Row(userId, code)]).Keys;
  }

  /**
   A resend that nobody interrupts leaves codes and flags as the atomic request does: one new code
   for an unverified user, and no change at all for a verified user or an unknown address.
   */
  lemma ResendAgrees(schedule: seq<Step>, store: Model.Store, t: nat, email: string, userId: Id,
                     codeId: Id, code: string, now: int)
    requires Run(schedule).Some? && Projects(store, Run(schedule).value) && t !in Run(schedule).value.txs
    requires var found := Operations.FindByEmail(store.users, email);
             if found.Some? then userId == found.value else userId !in store.users
    requires Free(Run(schedule).value, t, RowsOfUser(Run(schedule).value.codes, userId))
    requires codeId !in Run(schedule).value.usedIds && code !in Run(schedule).value.usedCodes
    ensures var a := Operations.Resend(store, email, codeId, code, now);
            var sent := Unverified(Run(schedule).value, userId);
            var whole := schedule + ResendStatements(t, userId, codeId, code, sent);
            && a.result == Model.Ok(if sent then Model.Sent(userId) else Model.Nothing)
            && LeadsTo(whole, Run(schedule).value, a.store)
            && (!sent ==> a.store == store && Run(whole) == Run(schedule))
  {
    RunIsOk(schedule);
    var s := Run(schedule).value;
    Accounts.FoundByEmail(store.users, email);
    assert codeId !in s.codes;
    var s2 := ReadsUser(schedule, s, t, userId, codeId, code);
    if Unverified(s, userId) {
      UnverifiedResends(schedule, store, s, t, email, userId, codeId, code, now, s2);
    }
  }

  lemma ReadsUser(schedule: seq<Step>, s: System, t: nat, userId: Id, codeId: Id, code: string) returns (s2: System)
    requires Run(schedule) == Some(s) && t !in s.txs
    ensures Run(schedule + ResendStatements(t, userId, codeId, code, false)) == Some(s2)
    ensures s2 == if Unverified(s, userId) then s.(txs := s.txs[t := Tx(ResendJob(userId), Read, {}, {}, None)]) else s
  {
    var s1 := s.(txs := s.txs[t := Tx(ResendJob(userId), Begun, {}, {}, None)]);
    FindsUser(s, t, userId, s1);
    s2 := Next(s1, FindUser(t));
    TwoSteps(schedule, s, Begin(t, ResendJob(userId)), s1, FindUser(t), s2);
    assert ResendStatements(t, userId, codeId, code, false) == [Begin(t, ResendJob(userId)), FindUser(t)];
  }

  lemma UnverifiedResends(schedule: seq<Step>, store: Model.Store, s: System, t: nat, email: string, userId: Id,
                          codeId: Id, code: string, now: int, s2: System)
    requires Projects(store, s) && t !in s.txs && Free(s, t, RowsOfUser(s.codes, userId))
    requires Operations.FindByEmail(store.users, email) == Some(userId) && Unverified(s, userId)
    requires codeId !in s.usedIds && code !in s.usedCodes && codeId !in store.codes
    requires Run(schedule + ResendStatements(t, userId, codeId, code, false)) == Some(s2)
    requires s2 == s.(txs := s.txs[t := Tx(ResendJob(userId), Read, {}, {}, None)])
    ensures var a := Operations.Resend(store, email, codeId, code, now);
            && a.result == Model.Ok(Model.Sent(userId))
            && LeadsTo(schedule + ResendStatements(t, userId, codeId, code, true), s, a.store)
  {
    var read := schedule + ResendStatements(t, userId, codeId, code, false);
    Replaces(read, s, t, userId, codeId, code, s2);
    ResentStore(store, s, email, userId, codeId, code, now);
    assert read + [StartDelete(t), FinishDelete(t), Generate(t, codeId, code), Commit(t)]
        == schedule + ResendStatements(t, userId, codeId, code, true);
  }

  // ---------------------------------------------------------------- resends that were interrupted

  /** The transaction is open after the first `i` steps. */
  ghost predicate OpenAt(schedule: seq<Step>, i: nat, t: nat, job: Job)
    requires i <= |schedule|
  {
    var s := Run(schedule[..i]); s.Some? && t in s.value.txs && s.value.txs[t].job == job
  }

  /** The user is there and unverified after the first `i` steps. */
  ghost predicate UnverifiedAt(schedule: seq<Step>, i: nat, userId: Id)
    requires i <= |schedule|
  {
    Run(schedule[..i]).Some? && Unverified(Run(schedule[..i]).value, userId)
  }

  /** Begun at step `b`, open ever since. */
  ghost predicate OpenSince(schedule: seq<Step>, b: nat, t: nat, job: Job) {
    && b < |schedule| && schedule[b] == Begin(t, job)
    && forall i :: b < i <= |schedule| ==> OpenAt(schedule, i, t, job)
  }

  /** The user was read at step `k`, as unverified. */
  ghost predicate ReadAt(schedule: seq<Step>, k: nat, t: nat, userId: Id) {
    k < |schedule| && schedule[k] == FindUser(t) && UnverifiedAt(schedule, k, userId)
  }

  /** An open transaction was open before the step, unless the step began it; only a read takes it past its begin. */
  lemma OpenBefore(s: System, step: Step, t: nat)
    requires Enabled(s, step) && t in Next(s, step).txs
    ensures var tx' := Next(s, step).txs[t];
            && (step == Begin(t, tx'.job) ==> tx'.stage.Begun?)
            && (step != Begin(t, tx'.job) ==>
                  t in s.txs && s.txs[t].job == tx'.job
                  && (s.txs[t].stage.Begun? && !tx'.stage.Begun? && tx'.job.ResendJob? ==>
                        step == FindUser(t) && Unverified(s, tx'.job.userId)))
  {
  }

  lemma PrefixRuns(init: seq<Step>, step: Step, i: nat)
    requires i <= |init|
    ensures (init + [step])[..i] == init[..i]
  {
  }

  lemma OpenLonger(init: seq<Step>, step: Step, b: nat, t: nat, job: Job)
    requires OpenSince(init, b, t, job) && OpenAt(init + [step], |init| + 1, t, job)
    ensures OpenSince(init + [step], b, t, job)
  {
    forall i | b < i <= |init| + 1 ensures OpenAt(init + [step], i, t, job) {
      if i <= |init| {
        PrefixRuns(init, step, i);
        assert OpenAt(init, i, t, job);
      }
    }
  }

  lemma ReadLonger(init: seq<Step>, step: Step, k: nat, t: nat, userId: Id)
    requires ReadAt(init, k, t, userId)
    ensures ReadAt(init + [step], k, t, userId)
  {
    PrefixRuns(init, step, k);
  }

  /** Whoever is open began at some step, and a resend past its begin read its user as unverified after that. */
  lemma {:induction false} ReadMoment(schedule: seq<Step>, t: nat) returns (b: nat, k: nat)
    requires Run(schedule).Some? && t in Run(schedule).value.txs
    ensures OpenSince(schedule, b, t, Run(schedule).value.txs[t].job)
    ensures var tx := Run(schedule).value.txs[t];
            tx.job.ResendJob? && !tx.stage.Begun? ==> b < k && ReadAt(schedule, k, t, tx.job.userId)
  {
    var last, tx := |schedule| - 1, Run(schedule).value.txs[t];
    var init, step := schedule[..last], schedule[last];
    var s := Run(init).value;
    assert schedule == init + [step] && schedule[..|schedule|] == schedule;
    OpenBefore(s, step, t);
    if step == Begin(t, tx.job) {
      b, k := last, last;
    } else {
      b, k := ReadMoment(init, t);
      OpenLonger(init, step, b, t, tx.job);
      if tx.job.ResendJob? && !tx.stage.Begun? {
        if s.txs[t].stage.Begun? {
          k := last;
        } else {
          ReadLonger(init, step, k, t, tx.job.userId);
        }
      }
    }
  }

  /** In every run a resend that commits began, read its user as unverified after that, and then committed. */
  lemma CommittedResendReadUnverified(schedule: seq<Step>, n: nat, t: nat, userId: Id) returns (b: nat, k: nat)
    requires Run(schedule).Some? && n < |schedule| && schedule[n] == Commit(t)
    requires OpenAt(schedule, n, t, ResendJob(userId))
    ensures b < k < n && schedule[b] == Begin(t, ResendJob(userId)) && schedule[k] == FindUser(t)
    ensures UnverifiedAt(schedule, k, userId)
    ensures forall i :: b < i <= n ==> OpenAt(schedule, i, t, ResendJob(userId))
  {
    RunStep(schedule, n);
    var before := schedule[..n];
    assert TxOk(Run(before).value, Run(before).value.txs[t]);
    b, k := ReadMoment(before, t);
    assert before[..k] == schedule[..k];
    forall i | b < i <= n ensures OpenAt(schedule, i, t, ResendJob(userId)) {
      assert before[..i] == schedule[..i] && OpenAt(before, i, t, ResendJob(userId));
    }
  }

  /** Only a commit of a verify verifies a user. */
  lemma VerifiedByCommit(s: System, step: Step, userId: Id)
    requires Enabled(s, step) && Unverified(s, userId) && !Unverified(Next(s, step), userId)
    ensures step.Commit? && s.txs[step.t].job.VerifyJob? && OwnerOf(s, s.txs[step.t]) == Some(userId)
  {
  }

  lemma {:induction false} TurningPoint(schedule: seq<Step>, k: nat, n: nat, userId: Id) returns (m: nat)
    requires Run(schedule).Some? && k <= n <= |schedule|
    requires UnverifiedAt(schedule, k, userId) && !UnverifiedAt(schedule, n, userId)
    ensures k <= m < n && UnverifiedAt(schedule, m, userId) && !UnverifiedAt(schedule, m + 1, userId)
    decreases n - k
  {
    if UnverifiedAt(schedule, n - 1, userId) {
      m := n - 1;
    } else {
      m := TurningPoint(schedule, k, n - 1, userId);
    }
  }

  /** Step `m` is the commit of a verify that found a code of the user, who was unverified until then. */
  ghost predicate VerifiedAt(schedule: seq<Step>, m: nat, userId: Id) {
    && m < |schedule| && UnverifiedAt(schedule, m, userId) && !UnverifiedAt(schedule, m + 1, userId)
    && schedule[m].Commit?
    && var s := Run(schedule[..m]).value;
    schedule[m].t in s.txs && OwnerOf(s, s.txs[schedule[m].t]) == Some(userId)
  }

  lemma TurnedByVerify(schedule: seq<Step>, m: nat, userId: Id)
    requires Run(schedule).Some? && m < |schedule|
    ensures UnverifiedAt(schedule, m, userId) && !UnverifiedAt(schedule, m + 1, userId) ==>
              VerifiedAt(schedule, m, userId)
  {
    RunStep(schedule, m);
    if UnverifiedAt(schedule, m, userId) && !UnverifiedAt(schedule, m + 1, userId) {
      VerifiedByCommit(Run(schedule[..m]).value, schedule[m], userId);
    }
  }

  /**
   A resend whose commit leaves a verified user a code: after it read the user and before it
   committed, a verify of that user committed.
   */
  lemma StrayMeansVerifiedMeanwhile(schedule: seq<Step>, n: nat, t: nat, userId: Id) returns (k: nat, m: nat)
    requires Run(schedule).Some? && n < |schedule| && schedule[n] == Commit(t)
    requires OpenAt(schedule, n, t, ResendJob(userId)) && !UnverifiedAt(schedule, n, userId)
    ensures k < m < n && schedule[k] == FindUser(t) && UnverifiedAt(schedule, k, userId)
    ensures VerifiedAt(schedule, m, userId)
  {
    var b;
    b, k := CommittedResendReadUnverified(schedule, n, t, userId);
    m := TurningPoint(schedule, k, n, userId);
    TurnedByVerify(schedule, m, userId);
    TurnedByVerify(schedule, k, userId);
  }
}
