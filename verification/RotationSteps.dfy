/**
 Refresh, logout and login as concurrent transactions, statement by statement.

 Any number of transactions are open at once. Each has its own program counter, the row it has
 locked and read, and its uncommitted writes; statements of different transactions interleave
 freely. `SELECT ... FOR UPDATE` waits until no other transaction holds the row and then reads the
 committed version. A transaction can stop at any point without effect: a failing statement, a
 failing commit and the request's time-out all roll it back. Registrations, verifications, resends
 and callbacks commit in between as whole transactions.

 The log records each answer at the moment it is decided: a success when it commits, a refusal
 when the check refuses.
 */
module RotationSteps {
  import opened Wrappers
  import opened Uuids
  import opened RawTokens
  import opened Model
  import opened Operations
  import opened Accounts
  import opened AccountHistory
  import TokenEffects

  datatype Job =
    | RefreshJob(raw: string)
    | LogoutJob(raw: string)
    | LoginJob(email: string, password: string)

  /** What the transaction did last. */
  datatype Stage =
    | Begun | Locked | OwnerSeen | NotRevoked | InDate | Relocked | Marked | Admitted | Inserted

  /** `held` is the locked row as it was read, `userId` and `mint` what the pending insert writes. */
  datatype Tx = Tx(
    job: Job,
    startedAt: int,
    stage: Stage,
    held: Option<(Id, Token)>,
    checkedAt: int,
    userId: Option<Id>,
    mint: Option<Mint>)

  datatype System = System(
    store: Store,
    txs: map<nat, Tx>,
    used: set<Id>,
    clock: int,
    log: seq<Event>)

  const INIT := System(EMPTY, map[], {}, 0, [])

  datatype Step =
    | Begin(t: nat, job: Job)
    | LockRow(t: nat)
    | FindOwner(t: nat)
    | CheckRevoked(t: nat)
    | CheckExpiry(t: nat)
    | ReadAgain(t: nat)
    | Mark(t: nat)
    | ReadAccount(t: nat)
    | Insert(t: nat, mint: Mint)
    | Commit(t: nat)
    | Abort(t: nat)
    | WholeTransaction(op: Op)
    | Tick(seconds: nat)

  // ---------------------------------------------------------------- the steps

  predicate Holds(tx: Tx, id: Id) {
    tx.held.Some? && tx.held.value.0 == id
  }

  /** The row a statement of transaction `t` wants is not locked by another transaction. */
  ghost predicate RowFree(s: System, t: nat, raw: string) {
    KeyOf(raw).Some? ==> forall u :: u in s.txs && u != t ==> !Holds(s.txs[u], KeyOf(raw).value)
  }

  ghost predicate At(s: System, t: nat, stage: Stage) {
    t in s.txs && s.txs[t].stage == stage
  }

  function IdsOf(op: Op): set<Id> {
    match op
    case OpRegister(_, _, _, userId, codeId, _, _) => {userId, codeId}
    case OpVerify(_, _) => {}
    case OpResend(_, codeId, _, _) => {codeId}
    case OpLogin(_, _, mint) => {mint.id}
    case OpCallback(_, userId, identityId, _, mint) => {userId, identityId, mint.id}
    case OpRefresh(_, _, _, mint) => {mint.id}
    case OpLogout(_, _) => {}
  }

  ghost predicate Enabled(s: System, step: Step) {
    match step
    case Begin(t, _) => t !in s.txs
    case LockRow(t) => At(s, t, Begun) && !s.txs[t].job.LoginJob? && RowFree(s, t, s.txs[t].job.raw)
    case FindOwner(t) => At(s, t, Locked) && s.txs[t].job.RefreshJob?
    case CheckRevoked(t) => At(s, t, OwnerSeen)
    case CheckExpiry(t) => At(s, t, NotRevoked)
    case ReadAgain(t) => At(s, t, InDate) && s.txs[t].job.RefreshJob? && RowFree(s, t, s.txs[t].job.raw)
    case Mark(t) => At(s, t, Relocked) || (At(s, t, Locked) && s.txs[t].job.LogoutJob?)
    case ReadAccount(t) => At(s, t, Begun) && s.txs[t].job.LoginJob?
    case Insert(t, mint) =>
      ((At(s, t, Marked) && s.txs[t].job.RefreshJob?) || At(s, t, Admitted)) && mint.id !in s.used
        && mint.issuedAt == s.clock
    case Commit(t) => At(s, t, Inserted) || (At(s, t, Marked) && s.txs[t].job.LogoutJob?)
    case Abort(t) => t in s.txs
    case WholeTransaction(op) =>
      (op.OpRegister? || op.OpVerify? || op.OpResend? || op.OpCallback?)
      && FreshFor(s.store, Issued(s.log), op) && IdsOf(op) !! s.used
    case Tick(_) => true
  }

  const NOT_MINTED := Mint(NIL, [], 0)

  /** The atomic request a transaction stands for; a refused one never reached its mint. */
  function OpOf(tx: Tx, now: int): Op {
    match tx.job
    case RefreshJob(raw) =>
      OpRefresh(raw, tx.startedAt, if tx.stage == Inserted then tx.checkedAt else now,
                if tx.mint.Some? then tx.mint.value else NOT_MINTED)
    case LogoutJob(raw) => OpLogout(raw, tx.startedAt)
    case LoginJob(email, password) => OpLogin(email, password, if tx.mint.Some? then tx.mint.value else NOT_MINTED)
  }

  function Move(s: System, t: nat, tx: Tx): System {
    s.(txs := s.txs[t := tx])
  }

  function Close(s: System, t: nat): System {
    s.(txs := s.txs - {t})
  }

  /** The request is answered with an error and its transaction rolled back. */
  function Refuse(s: System, t: nat, error: Error): System
    requires t in s.txs
  {
    Close(s, t).(log := s.log + [Event(OpOf(s.txs[t], s.clock), Err(error))])
  }

  /** Parses the token, locks and reads the row it names, and compares the MACs. */
  function LockAndRead(s: System, t: nat, stage: Stage): System
    requires t in s.txs && !s.txs[t].job.LoginJob?
  {
    var read := Lookup(s.store, s.txs[t].job.raw);
    if read.Ok? then Move(s, t, s.txs[t].(stage := stage, held := Some(read.value))) else Refuse(s, t, read.error)
  }

  /** The committed tables with a transaction's writes: the revocation mark, then the new row. */
  function WriteBack(store: Store, tx: Tx): Store {
    var marked :=
      if tx.held.Some? && tx.held.value.0 in store.tokens then RevokeRow(store, tx.held.value.0, tx.startedAt)
      else store;
    if tx.mint.Some? && tx.userId.Some? then
      var mint, userId := tx.mint.value, tx.userId.value;
      marked.(tokens := marked.tokens[mint.id := RowOf(MintedRaw(mint), Origin(mint.id, userId, mint.issuedAt), None)])
    else marked
  }

  function ReplyOf(tx: Tx): Reply {
    if tx.mint.Some? && tx.userId.Some? then Bundle(tx.userId.value, MintedRaw(tx.mint.value)) else Nothing
  }

  ghost function Next(s: System, step: Step): System
    requires Enabled(s, step)
  {
    match step
    case Begin(t, job) => Move(s, t, Tx(job, s.clock, Begun, None, 0, None, None))
    case LockRow(t) =>
      LockAndRead(s, t, Locked)
    case FindOwner(t) =>
      var tx := s.txs[t];
      if tx.held.Some? && tx.held.value.1.userId in s.store.users
      then Move(s, t, tx.(stage := OwnerSeen, userId := Some(tx.held.value.1.userId))) else Refuse(s, t, NoRows)
    case CheckRevoked(t) =>
      var tx := s.txs[t];
      if tx.held.Some? && tx.held.value.1.revokedAt.None? then Move(s, t, tx.(stage := NotRevoked))
      else Refuse(s, t, TokenRevoked)
    case CheckExpiry(t) =>
      var tx := s.txs[t];
      if tx.held.Some? && s.clock <= tx.held.value.1.expiresAt
      then Move(s, t, tx.(stage := InDate, checkedAt := s.clock)) else Refuse(s, t, TokenExpired)
    case ReadAgain(t) =>
      LockAndRead(s, t, Relocked)
    case Mark(t) =>
      var tx := s.txs[t];
      if tx.held.Some? && tx.held.value.0 in s.store.tokens then Move(s, t, tx.(stage := Marked))
      else Refuse(s, t, TokenNotFound)
    case ReadAccount(t) =>
      var read := Admit(s.store.users, s.txs[t].job.email, s.txs[t].job.password);
      if read.Ok? then Move(s, t, s.txs[t].(stage := Admitted, userId := Some(read.value)))
      else Refuse(s, t, read.error)
    case Insert(t, mint) => Move(s, t, s.txs[t].(stage := Inserted, mint := Some(mint))).(used := s.used + {mint.id})
    case Commit(t) =>
      var tx := s.txs[t];
      Close(s, t).(store := WriteBack(s.store, tx), log := s.log + [Event(OpOf(tx, s.clock), Ok(ReplyOf(tx)))])
    case Abort(t) => Close(s, t)
    case WholeTransaction(op) =>
      var a := Apply(s.store, op);
      s.(store := a.store, used := s.used + IdsOf(op), log := s.log + [Event(op, a.result)])
    case Tick(n) => s.(clock := s.clock + n)
  }

  // ---------------------------------------------------------------- what every step keeps

  predicate AfterLock(stage: Stage) {
    stage.Locked? || stage.OwnerSeen? || stage.NotRevoked? || stage.InDate? || stage.Relocked? || stage.Marked?
      || stage.Inserted?
  }

  /** A refresh in progress: its row is the committed row, and the checks it passed still hold. */
  ghost predicate RefreshOk(store: Store, tx: Tx)
    requires tx.job.RefreshJob?
  {
    && !tx.stage.Admitted?
    && (AfterLock(tx.stage) <==> tx.held.Some?)
    && (tx.stage.Inserted? <==> tx.mint.Some?)
    && (tx.held.Some? ==>
          && Lookup(store, tx.job.raw) == Ok(tx.held.value)
          && var row := tx.held.value.1;
          && (!tx.stage.Locked? ==> row.userId in store.users && tx.userId == Some(row.userId))
          && (!tx.stage.Locked? && !tx.stage.OwnerSeen? ==> row.revokedAt.None?)
          && (!tx.stage.Locked? && !tx.stage.OwnerSeen? && !tx.stage.NotRevoked? ==> tx.checkedAt <= row.expiresAt))
  }

  ghost predicate LogoutOk(store: Store, tx: Tx)
    requires tx.job.LogoutJob?
  {
    && (tx.stage.Begun? || tx.stage.Locked? || tx.stage.Marked?)
    && (AfterLock(tx.stage) <==> tx.held.Some?) && tx.mint.None? && tx.userId.None?
    && (tx.held.Some? ==> Lookup(store, tx.job.raw) == Ok(tx.held.value))
  }

  /** The user read at admission would be admitted now. */
  ghost predicate LoginOk(store: Store, tx: Tx)
    requires tx.job.LoginJob?
  {
    && (tx.stage.Begun? || tx.stage.Admitted? || tx.stage.Inserted?)
    && tx.held.None?
    && (tx.stage.Inserted? <==> tx.mint.Some?)
    && (!tx.stage.Begun? ==>
          tx.userId.Some? && Admit(store.users, tx.job.email, tx.job.password) == Ok(tx.userId.value))
  }

  ghost predicate TxOk(store: Store, tx: Tx) {
    match tx.job
    case RefreshJob(_) => RefreshOk(store, tx)
    case LogoutJob(_) => LogoutOk(store, tx)
    case LoginJob(_, _) => LoginOk(store, tx)
  }

  ghost predicate MintsId(tx: Tx, id: Id) {
    tx.mint.Some? && tx.mint.value.id == id
  }

  /** Ids in the tables or about to be written were generated, and each was generated once. */
  ghost predicate IdsOk(store: Store, txs: map<nat, Tx>, used: set<Id>) {
    && (forall id :: !Unused(store, id) ==> id in used)
    && (forall t, id :: t in txs && MintsId(txs[t], id) ==> id in used && Unused(store, id))
    && (forall t, u, id :: t in txs && u in txs && MintsId(txs[t], id) && MintsId(txs[u], id) ==> t == u)
  }

  /** No two transactions hold the same row. */
  ghost predicate LocksOk(txs: map<nat, Tx>) {
    forall t, u, id :: t in txs && u in txs && Holds(txs[t], id) && Holds(txs[u], id) ==> t == u
  }

  /** The committed store is what the log's requests leave when run one after the other. */
  ghost predicate LogOk(store: Store, log: seq<Event>) {
    History(log) && store == After(EMPTY, log)
  }

  ghost predicate SystemOk(s: System) {
    && LogOk(s.store, s.log)
    && (forall t :: t in s.txs ==> TxOk(s.store, s.txs[t]))
    && IdsOk(s.store, s.txs, s.used)
    && LocksOk(s.txs)
  }

  // ---------------------------------------------------------------- appending to the log

  lemma LogGrows(store: Store, log: seq<Event>, e: Event)
    requires LogOk(store, log) && Apply(store, e.op).result == e.result
    requires e.result.Ok? ==> FreshFor(store, Issued(log), e.op)
    ensures LogOk(Apply(store, e.op).store, log + [e])
  {
    var log' := log + [e];
    assert log'[..|log'| - 1] == log && log'[|log'| - 1] == e;
  }

  lemma StoreOk(store: Store, log: seq<Event>)
    requires LogOk(store, log)
    ensures Inv(store, Issued(log))
  {
    InvOverHistory(log);
  }

  // ---------------------------------------------------------------- transactions that are not stepping

  lemma LookupStays(store: Store, store': Store, raw: string, id: Id, row: Token)
    requires Lookup(store, raw) == Ok((id, row)) && id in store'.tokens && store'.tokens[id] == row
    ensures Lookup(store', raw) == Ok((id, row))
  {
    TokenEffects.LookupFinds(store, raw);
    TokenEffects.LookupOf(store', raw, id);
  }

  lemma AdmitStays(store: Store, store': Store, email: string, password: string, id: Id)
    requires AccountsKept(store, store') && UniqueEmails(store'.users)
    requires Admit(store.users, email, password) == Ok(id)
    ensures Admit(store'.users, email, password) == Ok(id)
  {
    FoundByEmail(store.users, email);
    assert HasEmail(store.users, id, email);
    FindByEmailIs(store'.users, id, email);
  }

  /** What others commit does not invalidate what a transaction has read and checked. */
  lemma TxStays(store: Store, store': Store, tx: Tx)
    requires TxOk(store, tx) && AccountsKept(store, store') && UniqueEmails(store'.users)
    requires tx.held.Some? ==> tx.held.value.0 in store'.tokens && store'.tokens[tx.held.value.0] == tx.held.value.1
    ensures TxOk(store', tx)
  {
    match tx.job
    case LoginJob(email, password) =>
      if !tx.stage.Begun? {
        AdmitStays(store, store', email, password, tx.userId.value);
      }
    case _ =>
      if tx.held.Some? {
        LookupStays(store, store', tx.job.raw, tx.held.value.0, tx.held.value.1);
      }
  }

  // ---------------------------------------------------------------- kinds of step

  lemma MoveKeeps(s: System, t: nat, tx: Tx)
    requires SystemOk(s) && TxOk(s.store, tx)
    requires tx.mint == (if t in s.txs then s.txs[t].mint else None)
    requires tx.held.Some? ==> forall u :: u in s.txs && u != t ==> !Holds(s.txs[u], tx.held.value.0)
    ensures SystemOk(Move(s, t, tx))
  {
    var txs' := s.txs[t := tx];
    forall u, id | u in txs' && MintsId(txs'[u], id) ensures u in s.txs && MintsId(s.txs[u], id) {
    }
  }

  lemma CloseKeeps(s: System, t: nat)
    requires SystemOk(s)
    ensures SystemOk(Close(s, t))
  {
    var txs' := s.txs - {t};
    forall u, id | u in txs' && MintsId(txs'[u], id) ensures u in s.txs && MintsId(s.txs[u], id) {
    }
  }

  lemma RefuseKeeps(s: System, t: nat, error: Error)
    requires SystemOk(s) && t in s.txs
    requires Apply(s.store, OpOf(s.txs[t], s.clock)) == Outcome(s.store, Err(error))
    ensures SystemOk(Refuse(s, t, error))
  {
    CloseKeeps(s, t);
    LogGrows(s.store, s.log, Event(OpOf(s.txs[t], s.clock), Err(error)));
  }

  /** Nobody else holds the row a free lookup finds. */
  lemma FreeRow(s: System, t: nat, raw: string, u: nat)
    requires RowFree(s, t, raw) && Lookup(s.store, raw).Ok? && u in s.txs && u != t
    ensures !Holds(s.txs[u], Lookup(s.store, raw).value.0)
  {
    TokenEffects.LookupFinds(s.store, raw);
  }

  lemma LockKeeps(s: System, t: nat)
    requires SystemOk(s) && Enabled(s, LockRow(t))
    ensures SystemOk(Next(s, LockRow(t)))
  {
    var tx := s.txs[t];
    var read := Lookup(s.store, tx.job.raw);
    if read.Ok? {
      forall u | u in s.txs && u != t ensures !Holds(s.txs[u], read.value.0) {
        FreeRow(s, t, tx.job.raw, u);
      }
      MoveKeeps(s, t, tx.(stage := Locked, held := Some(read.value)));
    } else {
      RefusedLookup(s.store, tx, s.clock);
      RefuseKeeps(s, t, read.error);
    }
  }

  lemma RefusedLookup(store: Store, tx: Tx, now: int)
    requires !tx.job.LoginJob? && Lookup(store, tx.job.raw).Err?
    ensures Apply(store, OpOf(tx, now)) == Outcome(store, Err(Lookup(store, tx.job.raw).error))
  {
  }

  /** The second read of the row finds what the first found: the row is locked. */
  lemma ReadAgainKeeps(s: System, t: nat)
    requires SystemOk(s) && Enabled(s, ReadAgain(t))
    ensures Next(s, ReadAgain(t)) == Move(s, t, s.txs[t].(stage := Relocked))
    ensures SystemOk(Next(s, ReadAgain(t)))
  {
    assert TxOk(s.store, s.txs[t]);
    LocalMove(s, t, s.txs[t].(stage := Relocked));
  }

  /** A step that takes no lock and mints nothing. */
  lemma LocalMove(s: System, t: nat, tx: Tx)
    requires SystemOk(s) && t in s.txs && TxOk(s.store, tx)
    requires tx.held == s.txs[t].held && tx.mint == s.txs[t].mint
    ensures SystemOk(Move(s, t, tx))
  {
    if tx.held.Some? {
      forall u | u in s.txs && u != t ensures !Holds(s.txs[u], tx.held.value.0) {
        assert Holds(s.txs[t], tx.held.value.0);
      }
    }
    MoveKeeps(s, t, tx);
  }

  /** A refresh refused after its row was read is refused by the atomic request. */
  lemma RefusedRefresh(store: Store, tx: Tx, now: int, error: Error)
    requires tx.job.RefreshJob? && RefreshOk(store, tx) && tx.held.Some?
    requires var row := tx.held.value.1;
             || (tx.stage.Locked? && row.userId !in store.users && error == NoRows)
             || (tx.stage.OwnerSeen? && row.revokedAt.Some? && error == TokenRevoked)
             || (tx.stage.NotRevoked? && now > row.expiresAt && error == TokenExpired)
    ensures Apply(store, OpOf(tx, now)) == Outcome(store, Err(error))
  {
  }

  lemma CheckKeeps(s: System, step: Step)
    requires SystemOk(s) && Enabled(s, step) && (step.FindOwner? || step.CheckRevoked? || step.CheckExpiry?)
    ensures SystemOk(Next(s, step))
  {
    var t := step.t;
    var tx := s.txs[t];
    assert TxOk(s.store, tx) && tx.job.RefreshJob?;
    var row := tx.held.value.1;
    match step
    case FindOwner(_) =>
      if row.userId in s.store.users {
        LocalMove(s, t, tx.(stage := OwnerSeen, userId := Some(row.userId)));
      } else {
        RefusedRefresh(s.store, tx, s.clock, NoRows);
        RefuseKeeps(s, t, NoRows);
      }
    case CheckRevoked(_) =>
      if row.revokedAt.None? {
        LocalMove(s, t, tx.(stage := NotRevoked));
      } else {
        RefusedRefresh(s.store, tx, s.clock, TokenRevoked);
        RefuseKeeps(s, t, TokenRevoked);
      }
    case CheckExpiry(_) =>
      if s.clock <= row.expiresAt {
        LocalMove(s, t, tx.(stage := InDate, checkedAt := s.clock));
      } else {
        RefusedRefresh(s.store, tx, s.clock, TokenExpired);
        RefuseKeeps(s, t, TokenExpired);
      }
  }

  lemma MarkKeeps(s: System, t: nat)
    requires SystemOk(s) && Enabled(s, Mark(t))
    ensures SystemOk(Next(s, Mark(t)))
  {
    var tx := s.txs[t];
    assert TxOk(s.store, tx);
    HeldRowExists(s.store, tx);
    LocalMove(s, t, tx.(stage := Marked));
  }

  lemma ReadAccountKeeps(s: System, t: nat)
    requires SystemOk(s) && Enabled(s, ReadAccount(t))
    ensures SystemOk(Next(s, ReadAccount(t)))
  {
    var tx := s.txs[t];
    assert TxOk(s.store, tx);
    var read := Admit(s.store.users, tx.job.email, tx.job.password);
    if read.Ok? {
      LocalMove(s, t, tx.(stage := Admitted, userId := Some(read.value)));
    } else {
      RefuseKeeps(s, t, read.error);
    }
  }

  lemma InsertKeeps(s: System, t: nat, mint: Mint)
    requires SystemOk(s) && Enabled(s, Insert(t, mint))
    ensures SystemOk(Next(s, Insert(t, mint)))
  {
    var tx := s.txs[t];
    assert TxOk(s.store, tx);
    var s' := Next(s, Insert(t, mint));
    assert TxOk(s'.store, s'.txs[t]);
    InsertKeepsIds(s.store, s.txs, s.used, t, mint);
    forall u, v, id | u in s'.txs && v in s'.txs && Holds(s'.txs[u], id) && Holds(s'.txs[v], id) ensures u == v {
      assert Holds(s.txs[u], id) && Holds(s.txs[v], id);
    }
  }

  lemma InsertKeepsIds(store: Store, txs: map<nat, Tx>, used: set<Id>, t: nat, mint: Mint)
    requires IdsOk(store, txs, used) && t in txs && mint.id !in used
    ensures IdsOk(store, txs[t := txs[t].(stage := Inserted, mint := Some(mint))], used + {mint.id})
  {
    var txs' := txs[t := txs[t].(stage := Inserted, mint := Some(mint))];
    assert Unused(store, mint.id);
    forall u, id | u in txs' && MintsId(txs'[u], id)
      ensures id in used + {mint.id} && Unused(store, id)
              && (u != t ==> u in txs && MintsId(txs[u], id) && id != mint.id)
    {
    }
  }

  // ---------------------------------------------------------------- steps that change the tables

  /** A committing transaction does exactly what its request does atomically at that moment. */
  lemma CommitIsAtomic(store: Store, tx: Tx, now: int)
    requires TxOk(store, tx) && (tx.stage.Inserted? || (tx.stage.Marked? && tx.job.LogoutJob?))
    requires tx.mint.Some? ==> tx.mint.value.id !in store.tokens
    ensures Apply(store, OpOf(tx, now)) == Outcome(WriteBack(store, tx), Ok(ReplyOf(tx)))
  {
    match tx.job
    case RefreshJob(raw) => RefreshIsAtomic(store, tx, raw, now);
    case LogoutJob(raw) => LogoutIsAtomic(store, tx, raw, now);
    case LoginJob(email, password) => LoginIsAtomic(store, tx, email, password, now);
  }

  lemma RefreshIsAtomic(store: Store, tx: Tx, raw: string, now: int)
    requires tx.job == RefreshJob(raw) && RefreshOk(store, tx) && tx.stage.Inserted?
             && tx.mint.value.id !in store.tokens
    ensures Apply(store, OpOf(tx, now)) == Outcome(WriteBack(store, tx), Ok(ReplyOf(tx)))
  {
    HeldRowExists(store, tx);
    RefreshCommits(store, tx, raw);
    assert OpOf(tx, now) == OpRefresh(raw, tx.startedAt, tx.checkedAt, tx.mint.value);
  }

  lemma LogoutIsAtomic(store: Store, tx: Tx, raw: string, now: int)
    requires tx.job == LogoutJob(raw) && LogoutOk(store, tx) && tx.stage.Marked?
    ensures Apply(store, OpOf(tx, now)) == Outcome(WriteBack(store, tx), Ok(ReplyOf(tx)))
  {
    HeldRowExists(store, tx);
    LogoutCommits(store, tx, raw);
    assert OpOf(tx, now) == OpLogout(raw, tx.startedAt);
  }

  lemma LoginIsAtomic(store: Store, tx: Tx, email: string, password: string, now: int)
    requires tx.job == LoginJob(email, password) && LoginOk(store, tx) && tx.stage.Inserted?
             && tx.mint.value.id !in store.tokens
    ensures Apply(store, OpOf(tx, now)) == Outcome(WriteBack(store, tx), Ok(ReplyOf(tx)))
  {
    LoginCommits(store, tx, email, password);
    assert OpOf(tx, now) == OpLogin(email, password, tx.mint.value);
  }

  lemma HeldRowExists(store: Store, tx: Tx)
    requires TxOk(store, tx) && tx.held.Some?
    ensures tx.held.value.0 in store.tokens && store.tokens[tx.held.value.0] == tx.held.value.1
  {
    TokenEffects.LookupFinds(store, tx.job.raw);
  }

  lemma RefreshCommits(store: Store, tx: Tx, raw: string)
    requires tx.job == RefreshJob(raw) && RefreshOk(store, tx) && tx.stage.Inserted?
    requires tx.mint.value.id !in store.tokens && tx.held.value.0 in store.tokens
    ensures Refresh(store, raw, tx.startedAt, tx.checkedAt, tx.mint.value)
            == Outcome(WriteBack(store, tx), Ok(ReplyOf(tx)))
  {
  }

  lemma LogoutCommits(store: Store, tx: Tx, raw: string)
    requires tx.job == LogoutJob(raw) && LogoutOk(store, tx) && tx.held.Some? && tx.held.value.0 in store.tokens
    ensures Revoke(store, raw, tx.startedAt) == Outcome(WriteBack(store, tx), Ok(ReplyOf(tx)))
  {
  }

  lemma LoginCommits(store: Store, tx: Tx, email: string, password: string)
    requires tx.job == LoginJob(email, password) && LoginOk(store, tx) && tx.stage.Inserted?
    requires tx.mint.value.id !in store.tokens
    ensures Login(store, email, password, tx.mint.value) == Outcome(WriteBack(store, tx), Ok(ReplyOf(tx)))
  {
  }

  lemma WriteBackIds(store: Store, tx: Tx, id: Id)
    requires !Unused(WriteBack(store, tx), id)
    ensures !Unused(store, id) || MintsId(tx, id)
  {
  }

  /** The rows others hold and the ids others will write are not the committing transaction's. */
  lemma CommitKeeps(s: System, t: nat)
    requires SystemOk(s) && Enabled(s, Commit(t))
    ensures SystemOk(Next(s, Commit(t)))
  {
    var tx := s.txs[t];
    assert TxOk(s.store, tx);
    if tx.mint.Some? {
      assert MintsId(tx, tx.mint.value.id);
      assert Unused(s.store, tx.mint.value.id);
    }
    CommitIsAtomic(s.store, tx, s.clock);
    var store' := WriteBack(s.store, tx);
    LogGrows(s.store, s.log, Event(OpOf(tx, s.clock), Ok(ReplyOf(tx))));
    StoreOk(s.store, s.log);
    forall u | u in s.txs && u != t ensures TxOk(store', s.txs[u]) {
      if s.txs[u].held.Some? {
        OtherRowsKept(s, t, u);
      }
      TxStays(s.store, store', s.txs[u]);
    }
    CommitKeepsIds(s, t);
  }

  lemma OtherRowsKept(s: System, t: nat, u: nat)
    requires SystemOk(s) && t in s.txs && u in s.txs && u != t && s.txs[u].held.Some?
    ensures var (id, row) := s.txs[u].held.value;
            var tokens' := WriteBack(s.store, s.txs[t]).tokens;
            id in tokens' && tokens'[id] == row
  {
    var (id, row) := s.txs[u].held.value;
    assert TxOk(s.store, s.txs[u]) && Holds(s.txs[u], id);
    HeldRowExists(s.store, s.txs[u]);
    assert !Holds(s.txs[t], id);
    assert !MintsId(s.txs[t], id) by {
      assert !Unused(s.store, id);
    }
  }

  lemma CommitKeepsIds(s: System, t: nat)
    requires SystemOk(s) && t in s.txs
    ensures IdsOk(WriteBack(s.store, s.txs[t]), s.txs - {t}, s.used)
  {
    var tx, txs' := s.txs[t], s.txs - {t};
    var store' := WriteBack(s.store, tx);
    forall id | !Unused(store', id) ensures id in s.used {
      WriteBackIds(s.store, tx, id);
    }
    forall u, id | u in txs' && MintsId(txs'[u], id) ensures id in s.used && Unused(store', id) {
      assert MintsId(s.txs[u], id);
      if !Unused(store', id) {
        WriteBackIds(s.store, tx, id);
      }
    }
    forall u, v, id | u in txs' && v in txs' && MintsId(txs'[u], id) && MintsId(txs'[v], id) ensures u == v {
      assert MintsId(s.txs[u], id) && MintsId(s.txs[v], id);
    }
  }

  /** The whole transactions add rows under their own ids and touch no token row. */
  lemma WholeTransactionRows(s: Store, op: Op)
    requires op.OpRegister? || op.OpVerify? || op.OpResend? || op.OpCallback?
    ensures var s' := Apply(s, op).store;
            (forall id :: id in s.tokens ==> id in s'.tokens && s'.tokens[id] == s.tokens[id])
            && (forall id :: !Unused(s', id) ==> !Unused(s, id) || id in IdsOf(op))
  {
    match op
    case OpRegister(_, _, _, _, _, _, _) =>
    case OpVerify(_, _) =>
    case OpResend(_, _, _, _) =>
    case OpCallback(claim, userId, identityId, now, mint) =>
      ResolveRows(s, claim, userId, identityId, now);
      if Apply(s, op).result.Ok? {
        TokenEffects.CallbackEffect(s, claim, userId, identityId, now, mint);
        BundleRows(Resolve(s, claim, userId, identityId, now).store,
                   Resolve(s, claim, userId, identityId, now).result.value, mint);
      } else {
        TokenEffects.FailureKeepsStore(s, op);
      }
  }

  lemma ResolveRows(s: Store, claim: Claim, userId: Id, identityId: Id, now: int)
    ensures var s' := Resolve(s, claim, userId, identityId, now).store;
            s'.tokens == s.tokens && forall id :: !Unused(s', id) ==> !Unused(s, id) || id == userId || id == identityId
  {
  }

  lemma BundleRows(s: Store, userId: Id, mint: Mint)
    ensures var s' := GenerateBundle(s, userId, mint).store;
            (forall id :: id in s.tokens ==> id in s'.tokens && s'.tokens[id] == s.tokens[id])
            && (forall id :: !Unused(s', id) ==> !Unused(s, id) || id == mint.id)
  {
  }

  lemma WholeTransactionKeeps(s: System, op: Op)
    requires SystemOk(s) && Enabled(s, WholeTransaction(op))
    ensures SystemOk(Next(s, WholeTransaction(op)))
  {
    var a := Apply(s.store, op);
    var e := Event(op, a.result);
    StoreOk(s.store, s.log);
    LogGrows(s.store, s.log, e);
    StoreOk(a.store, s.log + [e]);
    StepKeepsAccounts(s.store, Issued(s.log), e);
    WholeTransactionRows(s.store, op);
    forall u | u in s.txs ensures TxOk(a.store, s.txs[u]) {
      assert TxOk(s.store, s.txs[u]);
      if s.txs[u].held.Some? {
        HeldRowExists(s.store, s.txs[u]);
      }
      TxStays(s.store, a.store, s.txs[u]);
    }
    forall t, id | t in s.txs && MintsId(s.txs[t], id) ensures id in s.used && Unused(a.store, id) {
    }
  }

  lemma StepKeeps(s: System, step: Step)
    requires SystemOk(s) && Enabled(s, step)
    ensures SystemOk(Next(s, step))
  {
    match step
    case Begin(t, job) => MoveKeeps(s, t, Tx(job, s.clock, Begun, None, 0, None, None));
    case LockRow(t) => LockKeeps(s, t);
    case ReadAgain(t) => ReadAgainKeeps(s, t);
    case Mark(t) => MarkKeeps(s, t);
    case ReadAccount(t) => ReadAccountKeeps(s, t);
    case Insert(t, mint) => InsertKeeps(s, t, mint);
    case Commit(t) => CommitKeeps(s, t);
    case Abort(t) => CloseKeeps(s, t);
    case WholeTransaction(op) => WholeTransactionKeeps(s, op);
    case Tick(_) =>
    case _ => CheckKeeps(s, step);
  }

  // ---------------------------------------------------------------- runs

  /** The system after a schedule of steps, provided every step was enabled when it was taken. */
  ghost function Run(schedule: seq<Step>): Option<System> {
    if schedule == [] then Some(INIT)
    else
      var last := |schedule| - 1;
      match Run(schedule[..last])
      case Some(s) => if Enabled(s, schedule[last]) then Some(Next(s, schedule[last])) else None
      case None => None
  }

  lemma {:induction false} RunIsOk(schedule: seq<Step>)
    requires Run(schedule).Some?
    ensures SystemOk(Run(schedule).value)
  {
    if schedule != [] {
      var last := |schedule| - 1;
      RunIsOk(schedule[..last]);
      StepKeeps(Run(schedule[..last]).value, schedule[last]);
    }
  }
}
