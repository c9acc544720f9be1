/**
 What concurrent transactions can do, whatever the others are doing: a request can begin at any
 time, and stop at any time; and one whose row nobody holds can run to its end in the midst of the
 others, with the effect and the answer of the atomic request.
 */
module Progress {
  import opened Wrappers
  import opened Model
  import opened Operations
  import opened Accounts
  import opened AccountHistory
  import opened RotationSteps
  import TokenEffects

  // ---------------------------------------------------------------- continuing a run

  /** The system after some more steps. */
  ghost function RunFrom(s: System, rest: seq<Step>): Option<System>
    decreases |rest|
  {
    if rest == [] then Some(s)
    else if Enabled(s, rest[0]) then RunFrom(Next(s, rest[0]), rest[1..])
    else None
  }

  /** One more step of a run. */
  lemma OneMore(schedule: seq<Step>, s: System, step: Step, s': System)
    requires Run(schedule) == Some(s) && Enabled(s, step) && s' == Next(s, step)
    ensures Run(schedule + [step]) == Some(s')
  {
    var longer := schedule + [step];
    assert longer[..|longer| - 1] == schedule && longer[|longer| - 1] == step;
  }

  lemma FirstStep(schedule: seq<Step>, s: System, rest: seq<Step>) returns (next: System)
    requires Run(schedule) == Some(s) && RunFrom(s, rest).Some? && rest != []
    ensures Run(schedule + [rest[0]]) == Some(next) && RunFrom(next, rest[1..]) == RunFrom(s, rest)
  {
    next := Next(s, rest[0]);
    OneMore(schedule, s, rest[0], next);
  }

  lemma {:induction false} RunContinues(schedule: seq<Step>, s: System, rest: seq<Step>)
    requires Run(schedule) == Some(s) && RunFrom(s, rest).Some?
    ensures Run(schedule + rest) == RunFrom(s, rest)
    decreases |rest|
  {
    if rest == [] {
      assert schedule + rest == schedule;
    } else {
      var next := FirstStep(schedule, s, rest);
      RunContinues(schedule + [rest[0]], next, rest[1..]);
      assert schedule + rest == schedule + [rest[0]] + rest[1..];
    }
  }

  lemma {:induction false} RunsOn(s: System, first: seq<Step>, s': System, second: seq<Step>)
    requires RunFrom(s, first) == Some(s')
    ensures RunFrom(s, first + second) == RunFrom(s', second)
    decreases |first|
  {
    if first == [] {
      assert first + second == second;
    } else {
      assert (first + second)[0] == first[0] && (first + second)[1..] == first[1..] + second;
      RunsOn(Next(s, first[0]), first[1..], s', second);
    }
  }

  lemma BeginNext(s: System, t: nat, job: Job)
    requires t !in s.txs
    ensures Enabled(s, Begin(t, job))
    ensures Next(s, Begin(t, job)) == s.(txs := s.txs[t := Tx(job, s.clock, Begun, None, 0, None, None)])
  {
  }

  /** A request can begin whatever else is open, and starts then. */
  lemma BeginAnytime(schedule: seq<Step>, t: nat, job: Job)
    requires Run(schedule).Some? && t !in Run(schedule).value.txs
    ensures Run(schedule + [Begin(t, job)]).Some?
    ensures var s, s' := Run(schedule).value, Run(schedule + [Begin(t, job)]).value;
            && t in s'.txs && s'.txs[t].job == job && s'.txs[t].startedAt == s.clock && s'.txs[t].stage == Begun
            && s' == s.(txs := s.txs[t := s'.txs[t]])
  {
    var s := Run(schedule).value;
    BeginNext(s, t, job);
    OneMore(schedule, s, Begin(t, job), s.(txs := s.txs[t := Tx(job, s.clock, Begun, None, 0, None, None)]));
  }

  lemma AbortNext(s: System, t: nat)
    requires t in s.txs
    ensures Enabled(s, Abort(t)) && Next(s, Abort(t)) == s.(txs := s.txs - {t})
  {
  }

  /** A transaction can stop at any point, without an effect and without an answer. */
  lemma AbortAnytime(schedule: seq<Step>, s: System, t: nat)
    requires Run(schedule) == Some(s) && t in s.txs
    ensures Run(schedule + [Abort(t)]) == Some(s.(txs := s.txs - {t}))
  {
    AbortNext(s, t);
    OneMore(schedule, s, Abort(t), s.(txs := s.txs - {t}));
  }

  lemma TickNext(s: System, seconds: nat)
    ensures Enabled(s, Tick(seconds)) && Next(s, Tick(seconds)) == s.(clock := s.clock + seconds)
  {
  }

  /** Time can pass while transactions are open. */
  lemma TickAnytime(schedule: seq<Step>, s: System, seconds: nat)
    requires Run(schedule) == Some(s)
    ensures Run(schedule + [Tick(seconds)]) == Some(s.(clock := s.clock + seconds))
  {
    TickNext(s, seconds);
    OneMore(schedule, s, Tick(seconds), s.(clock := s.clock + seconds));
  }

  /** The system after a whole transaction. */
  ghost function Served(s: System, op: Op): System {
    var a := Apply(s.store, op);
    s.(store := a.store, log := s.log + [Event(op, a.result)], used := s.used + IdsOf(op))
  }

  lemma WholeNext(s: System, op: Op)
    requires op.OpRegister? || op.OpVerify? || op.OpResend? || op.OpCallback?
    requires FreshFor(s.store, Issued(s.log), op) && IdsOf(op) !! s.used
    ensures Enabled(s, WholeTransaction(op)) && Next(s, WholeTransaction(op)) == Served(s, op)
  {
  }

  /** A registration, verification, resend or callback with new ids can commit in between. */
  lemma WholeAnytime(schedule: seq<Step>, s: System, op: Op)
    requires Run(schedule) == Some(s) && (op.OpRegister? || op.OpVerify? || op.OpResend? || op.OpCallback?)
    requires FreshFor(s.store, Issued(s.log), op) && IdsOf(op) !! s.used
    ensures Run(schedule + [WholeTransaction(op)]) == Some(Served(s, op))
  {
    WholeNext(s, op);
    OneMore(schedule, s, WholeTransaction(op), Served(s, op));
  }

  // ---------------------------------------------------------------- one transaction runs to its end

  /** The atomic request of a job. */
  function RequestOf(job: Job, startedAt: int, checkedAt: int, mint: Mint): Op {
    match job
    case RefreshJob(raw) => OpRefresh(raw, startedAt, checkedAt, mint)
    case LogoutJob(raw) => OpLogout(raw, startedAt)
    case LoginJob(email, password) => OpLogin(email, password, mint)
  }

  /** Nobody else holds the row the job looks up. */
  ghost predicate Unhindered(s: System, t: nat, job: Job) {
    job.LoginJob? || RowFree(s, t, job.raw)
  }

  /** Statements left in a transaction of this stage. */
  function Left(stage: Stage): nat {
    match stage
    case Begun => 8
    case Locked => 7
    case OwnerSeen => 6
    case NotRevoked => 5
    case InDate => 4
    case Relocked => 3
    case Marked => 2
    case Admitted => 2
    case Inserted => 1
  }

  /** The next statement of a transaction. */
  function Statement(t: nat, tx: Tx, mint: Mint): Step {
    match tx.stage
    case Begun => if tx.job.LoginJob? then ReadAccount(t) else LockRow(t)
    case Locked => if tx.job.LogoutJob? then Mark(t) else FindOwner(t)
    case OwnerSeen => CheckRevoked(t)
    case NotRevoked => CheckExpiry(t)
    case InDate => ReadAgain(t)
    case Relocked => Mark(t)
    case Marked => if tx.job.LogoutJob? then Commit(t) else Insert(t, mint)
    case Admitted => Insert(t, mint)
    case Inserted => Commit(t)
  }

  /** The transaction is on its way since the clock showed what it shows now, with this mint. */
  ghost predicate OnItsWay(s: System, t: nat, mint: Mint) {
    && t in s.txs && Unhindered(s, t, s.txs[t].job)
    && mint.issuedAt == s.clock
    && (if s.txs[t].stage.Inserted? then s.txs[t].mint == Some(mint) else mint.id !in s.used)
    && (Left(s.txs[t].stage) <= 4 && s.txs[t].job.RefreshJob? ==> s.txs[t].checkedAt == s.clock)
  }

  /** A transaction whose row nobody else holds never waits, at whatever statement it is. */
  lemma StatementEnabled(s: System, t: nat, mint: Mint)
    requires SystemOk(s) && t in s.txs && Unhindered(s, t, s.txs[t].job)
    requires mint.issuedAt == s.clock && (s.txs[t].stage.Inserted? || mint.id !in s.used)
    ensures Enabled(s, Statement(t, s.txs[t], mint))
  {
    assert TxOk(s.store, s.txs[t]);
  }

  lemma StaysUnhindered(s: System, s': System, t: nat, job: Job)
    requires Unhindered(s, t, job) && t in s'.txs && s'.txs == s.txs[t := s'.txs[t]]
    ensures Unhindered(s', t, job)
  {
    forall u | u in s'.txs && u != t ensures u in s.txs && s'.txs[u] == s.txs[u] {
    }
  }

  /** The transaction goes on; the tables, the log and the others are as they were. */
  ghost predicate Moved(s: System, t: nat, mint: Mint, s': System)
    requires t in s.txs && t in s'.txs
  {
    var tx, tx' := s.txs[t], s'.txs[t];
    && s'.store == s.store && s'.log == s.log && s'.clock == s.clock && s'.used <= s.used + {mint.id}
    && s'.txs == s.txs[t := tx'] && tx'.job == tx.job && tx'.startedAt == tx.startedAt
    && Left(tx'.stage) < Left(tx.stage)
    && (if tx'.stage.Inserted? then tx'.mint == Some(mint) else mint.id !in s'.used)
    && (Left(tx'.stage) <= 4 && tx.job.RefreshJob? ==> tx'.checkedAt == s.clock)
  }

  /** The transaction is over and its answer logged. */
  ghost predicate Answered(s: System, t: nat, mint: Mint, s': System)
    requires t in s.txs
  {
    var tx := s.txs[t];
    && s'.txs == s.txs - {t} && s'.clock == s.clock && s'.used == s.used
    && |s'.log| == |s.log| + 1 && s'.log[..|s.log|] == s.log
    && var e := s'.log[|s.log|];
    if e.result.Ok? then e.op == RequestOf(tx.job, tx.startedAt, s.clock, mint)
    else e.result.error != UniqueViolation && e.op == RequestOf(tx.job, tx.startedAt, s.clock, NOT_MINTED)
  }

  ghost predicate Stepped(s: System, t: nat, mint: Mint, s': System)
    requires t in s.txs
  {
    if t in s'.txs then Moved(s, t, mint, s') else Answered(s, t, mint, s')
  }

  lemma RefuseAnswers(s: System, t: nat, mint: Mint, error: Error)
    requires t in s.txs && s.txs[t].mint.None? && !s.txs[t].stage.Inserted? && error != UniqueViolation
    ensures Answered(s, t, mint, Refuse(s, t, error))
  {
  }

  lemma MoveMoves(s: System, t: nat, mint: Mint, tx': Tx)
    requires OnItsWay(s, t, mint)
    requires tx'.job == s.txs[t].job && tx'.startedAt == s.txs[t].startedAt && Left(tx'.stage) < Left(s.txs[t].stage)
    requires !tx'.stage.Inserted? && !s.txs[t].stage.Inserted?
    requires Left(tx'.stage) <= 4 && tx'.job.RefreshJob? ==> tx'.checkedAt == s.clock
    ensures Stepped(s, t, mint, Move(s, t, tx'))
  {
  }

  lemma LookupSteps(s: System, t: nat, mint: Mint, stage: Stage)
    requires OnItsWay(s, t, mint) && TxOk(s.store, s.txs[t]) && !s.txs[t].job.LoginJob?
    requires (s.txs[t].stage.Begun? && stage == Locked) || (s.txs[t].stage.InDate? && stage == Relocked)
    ensures Stepped(s, t, mint, LockAndRead(s, t, stage))
  {
    var read := Lookup(s.store, s.txs[t].job.raw);
    if read.Err? {
      RefuseAnswers(s, t, mint, read.error);
    } else {
      MoveMoves(s, t, mint, s.txs[t].(stage := stage, held := Some(read.value)));
    }
  }

  lemma FindOwnerSteps(s: System, t: nat, mint: Mint)
    requires OnItsWay(s, t, mint) && TxOk(s.store, s.txs[t]) && Enabled(s, FindOwner(t))
    ensures Stepped(s, t, mint, Next(s, FindOwner(t)))
  {
    var tx := s.txs[t];
    if tx.held.value.1.userId !in s.store.users {
      RefuseAnswers(s, t, mint, NoRows);
    } else {
      MoveMoves(s, t, mint, tx.(stage := OwnerSeen, userId := Some(tx.held.value.1.userId)));
    }
  }

  lemma CheckRevokedNext(s: System, t: nat)
    requires Enabled(s, CheckRevoked(t)) && s.txs[t].held.Some?
    ensures Next(s, CheckRevoked(t))
         == if s.txs[t].held.value.1.revokedAt.Some?
            then Refuse(s, t, TokenRevoked) else Move(s, t, s.txs[t].(stage := NotRevoked))
  {
  }

  lemma CheckRevokedSteps(s: System, t: nat, mint: Mint)
    requires OnItsWay(s, t, mint) && TxOk(s.store, s.txs[t]) && Enabled(s, CheckRevoked(t))
    ensures Stepped(s, t, mint, Next(s, CheckRevoked(t)))
  {
    var tx := s.txs[t];
    CheckRevokedNext(s, t);
    if tx.held.value.1.revokedAt.Some? {
      RefuseAnswers(s, t, mint, TokenRevoked);
    } else {
      MoveMoves(s, t, mint, tx.(stage := NotRevoked));
    }
  }

  lemma CheckExpiryNext(s: System, t: nat)
    requires Enabled(s, CheckExpiry(t)) && s.txs[t].held.Some?
    ensures Next(s, CheckExpiry(t))
         == if s.clock <= s.txs[t].held.value.1.expiresAt
            then Move(s, t, s.txs[t].(stage := InDate, checkedAt := s.clock)) else Refuse(s, t, TokenExpired)
  {
  }

  lemma CheckExpirySteps(s: System, t: nat, mint: Mint)
    requires OnItsWay(s, t, mint) && s.txs[t].job.RefreshJob? && s.txs[t].stage.NotRevoked? && s.txs[t].mint.None?
    ensures Stepped(s, t, mint, Move(s, t, s.txs[t].(stage := InDate, checkedAt := s.clock)))
    ensures Stepped(s, t, mint, Refuse(s, t, TokenExpired))
  {
    RefuseAnswers(s, t, mint, TokenExpired);
    MoveMoves(s, t, mint, s.txs[t].(stage := InDate, checkedAt := s.clock));
  }

  lemma MarkNext(s: System, t: nat)
    requires Enabled(s, Mark(t)) && s.txs[t].held.Some? && s.txs[t].held.value.0 in s.store.tokens
    ensures Next(s, Mark(t)) == Move(s, t, s.txs[t].(stage := Marked))
  {
  }

  lemma MarkSteps(s: System, t: nat, mint: Mint)
    requires OnItsWay(s, t, mint) && (s.txs[t].stage.Relocked? || (s.txs[t].stage.Locked? && s.txs[t].job.LogoutJob?))
    ensures Stepped(s, t, mint, Move(s, t, s.txs[t].(stage := Marked)))
  {
    MoveMoves(s, t, mint, s.txs[t].(stage := Marked));
  }

  lemma ReadAccountSteps(s: System, t: nat, mint: Mint)
    requires OnItsWay(s, t, mint) && TxOk(s.store, s.txs[t]) && Enabled(s, ReadAccount(t))
    ensures Stepped(s, t, mint, Next(s, ReadAccount(t)))
  {
    var tx := s.txs[t];
    var read := Admit(s.store.users, tx.job.email, tx.job.password);
    if read.Err? {
      RefuseAnswers(s, t, mint, read.error);
    } else {
      MoveMoves(s, t, mint, tx.(stage := Admitted, userId := Some(read.value)));
    }
  }

  lemma InsertSteps(s: System, t: nat, mint: Mint)
    requires OnItsWay(s, t, mint) && TxOk(s.store, s.txs[t]) && Enabled(s, Insert(t, mint))
    ensures Stepped(s, t, mint, Next(s, Insert(t, mint)))
  {
  }

  lemma CommitNext(s: System, t: nat)
    requires Enabled(s, Commit(t))
    ensures var tx, s' := s.txs[t], Next(s, Commit(t));
            && s'.txs == s.txs - {t} && s'.clock == s.clock && s'.used == s.used
            && s'.log == s.log + [Event(OpOf(tx, s.clock), Ok(ReplyOf(tx)))]
  {
  }

  lemma CommitSteps(s: System, t: nat, mint: Mint, s': System)
    requires OnItsWay(s, t, mint)
    requires var tx := s.txs[t]; tx.job.LogoutJob? || (tx.stage.Inserted? && tx.mint == Some(mint))
    requires s'.txs == s.txs - {t} && s'.clock == s.clock && s'.used == s.used
    requires s'.log == s.log + [Event(OpOf(s.txs[t], s.clock), Ok(ReplyOf(s.txs[t])))]
    ensures Stepped(s, t, mint, s')
  {
    var tx := s.txs[t];
    assert OpOf(tx, s.clock) == RequestOf(tx.job, tx.startedAt, s.clock, mint);
  }

  lemma MarkStatementSteps(s: System, t: nat, mint: Mint)
    requires OnItsWay(s, t, mint) && TxOk(s.store, s.txs[t]) && Enabled(s, Mark(t))
    ensures Stepped(s, t, mint, Next(s, Mark(t)))
  {
    HeldRowExists(s.store, s.txs[t]);
    MarkNext(s, t);
    MarkSteps(s, t, mint);
  }

  lemma LateStatementSteps(s: System, t: nat, mint: Mint)
    requires OnItsWay(s, t, mint) && TxOk(s.store, s.txs[t]) && Enabled(s, Statement(t, s.txs[t], mint))
    requires var step := Statement(t, s.txs[t], mint); step.CheckExpiry? || step.Commit?
    ensures Stepped(s, t, mint, Next(s, Statement(t, s.txs[t], mint)))
  {
    if s.txs[t].stage.NotRevoked? {
      CheckExpiryNext(s, t);
      CheckExpirySteps(s, t, mint);
    } else {
      CommitNext(s, t);
      CommitSteps(s, t, mint, Next(s, Commit(t)));
    }
  }

  /** A statement brings its transaction on or answers it. */
  lemma StatementSteps(s: System, t: nat, mint: Mint)
    requires SystemOk(s) && OnItsWay(s, t, mint) && Enabled(s, Statement(t, s.txs[t], mint))
    ensures Stepped(s, t, mint, Next(s, Statement(t, s.txs[t], mint)))
  {
    assert TxOk(s.store, s.txs[t]);
    match Statement(t, s.txs[t], mint)
    case LockRow(_) => LookupSteps(s, t, mint, Locked);
    case FindOwner(_) => FindOwnerSteps(s, t, mint);
    case CheckRevoked(_) => CheckRevokedSteps(s, t, mint);
    case ReadAgain(_) => LookupSteps(s, t, mint, Relocked);
    case ReadAccount(_) => ReadAccountSteps(s, t, mint);
    case Insert(_, _) => InsertSteps(s, t, mint);
    case Mark(_) => MarkStatementSteps(s, t, mint);
    case _ => LateStatementSteps(s, t, mint);
  }

  lemma EndIsAtomic(s: System, s': System, e: Event)
    requires SystemOk(s) && SystemOk(s') && s'.log == s.log + [e]
    ensures Apply(s.store, e.op) == Outcome(s'.store, e.result)
  {
    assert s'.log[..|s'.log| - 1] == s.log && s'.log[|s'.log| - 1] == e;
  }

  /** A refusal does not depend on the mint that was never used. */
  lemma RefusalIgnoresMint(store: Store, job: Job, startedAt: int, checkedAt: int, mint: Mint, mint': Mint,
                           error: Error)
    requires Apply(store, RequestOf(job, startedAt, checkedAt, mint)) == Outcome(store, Err(error))
    requires error != UniqueViolation
    ensures Apply(store, RequestOf(job, startedAt, checkedAt, mint')) == Outcome(store, Err(error))
  {
    match job
    case RefreshJob(raw) => RefreshRefusal(store, raw, startedAt, checkedAt, mint, mint', error);
    case LogoutJob(_) =>
    case LoginJob(email, password) => LoginRefusal(store, email, password, mint, mint', error);
  }

  lemma RefreshRefusal(store: Store, raw: string, startedAt: int, checkedAt: int, mint: Mint, mint': Mint,
                       error: Error)
    requires Refresh(store, raw, startedAt, checkedAt, mint) == Outcome(store, Err(error)) && error != UniqueViolation
    ensures Refresh(store, raw, startedAt, checkedAt, mint') == Outcome(store, Err(error))
  {
  }

  lemma LoginRefusal(store: Store, email: string, password: string, mint: Mint, mint': Mint, error: Error)
    requires Login(store, email, password, mint) == Outcome(store, Err(error)) && error != UniqueViolation
    ensures Login(store, email, password, mint') == Outcome(store, Err(error))
  {
  }

  /** What a transaction that ran to its end leaves: the atomic request's store and answer, and the others. */
  ghost predicate Ended(s: System, t: nat, op: Op, unserved: Op, s': System) {
    && s'.store == Apply(s.store, op).store && s'.txs == s.txs - {t} && s'.clock == s.clock
    && s'.log == s.log + [Event(if Apply(s.store, op).result.Ok? then op else unserved, Apply(s.store, op).result)]
  }

  lemma AnswerKeepsStore(store: Store, op: Op)
    ensures Apply(store, op).result.Err? ==> Apply(store, op).store == store
  {
    if Apply(store, op).result.Err? {
      TokenEffects.FailureKeepsStore(store, op);
    }
  }

  lemma AnswerIsAtomic(s: System, t: nat, mint: Mint, s': System)
    requires SystemOk(s) && SystemOk(s') && t in s.txs && Answered(s, t, mint, s')
    ensures var tx := s.txs[t];
            Ended(s, t, RequestOf(tx.job, tx.startedAt, s.clock, mint),
                  RequestOf(tx.job, tx.startedAt, s.clock, NOT_MINTED), s')
  {
    var tx, e := s.txs[t], s'.log[|s.log|];
    assert s'.log == s.log + [e];
    EndIsAtomic(s, s', e);
    if e.result.Err? {
      AnswerKeepsStore(s.store, e.op);
      RefusalIgnoresMint(s.store, tx.job, tx.startedAt, s.clock, NOT_MINTED, mint, e.result.error);
    }
  }

  /** One statement of a transaction on its way: it stays on its way, or its request is answered. */
  lemma OneStatement(s: System, t: nat, mint: Mint) returns (step: Step, next: System)
    requires SystemOk(s) && OnItsWay(s, t, mint)
    ensures Enabled(s, step) && next == Next(s, step) && SystemOk(next) && Stepped(s, t, mint, next)
    ensures t in next.txs ==> OnItsWay(next, t, mint)
    ensures step == Statement(t, s.txs[t], mint)
  {
    step := Statement(t, s.txs[t], mint);
    StatementEnabled(s, t, mint);
    StepKeeps(s, step);
    StatementSteps(s, t, mint);
    next := Next(s, step);
    if t in next.txs {
      StaysUnhindered(s, next, t, s.txs[t].job);
    }
  }

  lemma EndedBefore(s: System, t: nat, mint: Mint, next: System, op: Op, unserved: Op, s': System)
    requires t in s.txs && t in next.txs && Moved(s, t, mint, next) && Ended(next, t, op, unserved, s')
    ensures Ended(s, t, op, unserved, s')
  {
    assert next.txs - {t} == s.txs - {t};
  }

  lemma RunsOne(s: System, step: Step, next: System, rest: seq<Step>)
    requires Enabled(s, step) && next == Next(s, step)
    ensures RunFrom(s, [step] + rest) == RunFrom(next, rest)
  {
    assert ([step] + rest)[1..] == rest;
  }

  /**
   A transaction on its way runs to its end in the midst of the others, if nobody else holds its row:
   it leaves the store and gives the answer of its atomic request.
   */
  lemma {:induction false} RunsToItsEnd(s: System, t: nat, mint: Mint) returns (rest: seq<Step>, s': System)
    requires SystemOk(s) && OnItsWay(s, t, mint)
    ensures RunFrom(s, rest) == Some(s') && SystemOk(s') && s'.used <= s.used + {mint.id}
    ensures var tx := s.txs[t];
            Ended(s, t, RequestOf(tx.job, tx.startedAt, s.clock, mint),
                  RequestOf(tx.job, tx.startedAt, s.clock, NOT_MINTED), s')
    decreases if t in s.txs then Left(s.txs[t].stage) else 0
  {
    var step, next := OneStatement(s, t, mint);
    if t in next.txs {
      rest, s' := RunsToItsEnd(next, t, mint);
      var tx := s.txs[t];
      EndedBefore(s, t, mint, next, RequestOf(tx.job, tx.startedAt, s.clock, mint),
                  RequestOf(tx.job, tx.startedAt, s.clock, NOT_MINTED), s');
      RunsOne(s, step, next, rest);
      rest := [step] + rest;
    } else {
      AnswerIsAtomic(s, t, mint, next);
      RunsOne(s, step, next, []);
      rest, s' := [step] + [], next;
    }
  }

  // ---------------------------------------------------------------- for every reachable system

  /** The steps lead from the run to where the atomic request, begun at `startedAt` and checked now, leads. */
  ghost predicate LeadsTo(schedule: seq<Step>, rest: seq<Step>, t: nat, job: Job, startedAt: int, mint: Mint)
    requires Run(schedule).Some?
  {
    var s := Run(schedule).value;
    && Run(schedule + rest).Some?
    && Ended(s, t, RequestOf(job, startedAt, s.clock, mint), RequestOf(job, startedAt, s.clock, NOT_MINTED),
             Run(schedule + rest).value)
  }

  /** A transaction that has begun can run to its end where it stands, whoever else is open. */
  lemma BegunRunsToItsEnd(schedule: seq<Step>, t: nat, mint: Mint) returns (rest: seq<Step>)
    requires Run(schedule).Some? && At(Run(schedule).value, t, Begun)
    requires var s := Run(schedule).value;
             Unhindered(s, t, s.txs[t].job) && mint.id !in s.used && mint.issuedAt == s.clock
    ensures var tx := Run(schedule).value.txs[t]; LeadsTo(schedule, rest, t, tx.job, tx.startedAt, mint)
  {
    RunIsOk(schedule);
    var s';
    rest, s' := RunsToItsEnd(Run(schedule).value, t, mint);
    RunContinues(schedule, Run(schedule).value, rest);
  }

  /**
   The converse of the refinement: every atomic refresh, logout and login is a run of its statements
   on any reachable system where nobody holds its row, with its store and its answer.
   */
  lemma AtomicRequestRuns(schedule: seq<Step>, t: nat, job: Job, mint: Mint) returns (rest: seq<Step>)
    requires Run(schedule).Some? && t !in Run(schedule).value.txs
    requires var s := Run(schedule).value; Unhindered(s, t, job) && mint.id !in s.used && mint.issuedAt == s.clock
    ensures rest != [] && rest[0] == Begin(t, job)
    ensures LeadsTo(schedule, rest, t, job, Run(schedule).value.clock, mint)
  {
    var s, begun := Run(schedule).value, schedule + [Begin(t, job)];
    BeginAnytime(schedule, t, job);
    StaysUnhindered(s, Run(begun).value, t, job);
    rest := BegunRunsToItsEnd(begun, t, mint);
    assert begun + rest == schedule + ([Begin(t, job)] + rest);
    rest := [Begin(t, job)] + rest;
    assert Run(begun).value.txs - {t} == s.txs - {t};
  }
}
